/** The observer receipt: provider records as they are written down, and the quorum recomputed from them. */
module Receipt {
  import opened Wrappers
  import opened ProtocolTypes
  import opened Finality
  import opened Quorum
  import opened Sorting
  import opened RpcQuorum

  datatype ProviderRecord = ProviderRecord(
    providerId: Name,
    available: bool,
    latest: Option<Header>,
    safe: Option<Header>,
    finalized: Option<Header>,
    error: Option<RpcError>)
  {
    function Head(tag: Tag): Option<Header> {
      match tag
      case Latest => latest
      case Safe => safe
      case Finalized => finalized
    }
  }

  predicate RangeOk(b: Option<Header>) {
    b.Some? ==> InRange(b.value)
  }

  /** What normalizeProvider lets through. */
  predicate Normal(p: ProviderRecord) {
    && RangeOk(p.latest) && RangeOk(p.safe) && RangeOk(p.finalized)
    && if p.available then
        && p.error == None && p.latest.Some? && p.safe.Some? && p.finalized.Some?
        && CoherentPair(p.latest.value, p.safe.value) && CoherentPair(p.safe.value, p.finalized.value)
      else p.latest == None && p.safe == None && p.finalized == None && p.error.Some?
  }

  function RecordBallot(p: ProviderRecord, tag: Tag): Ballot {
    Ballot(p.providerId, if p.available then p.Head(tag) else None)
  }

  function RecordBallots(records: seq<ProviderRecord>, tag: Tag): (ballots: seq<Ballot>)
    ensures |ballots| == |records|
    ensures forall i :: 0 <= i < |records| ==> ballots[i] == RecordBallot(records[i], tag)
  {
    if records == [] then [] else [RecordBallot(records[0], tag)] + RecordBallots(records[1..], tag)
  }

  function RecordRank(p: ProviderRecord): int {
    Rank(p.providerId)
  }

  function SortRecords(records: seq<ProviderRecord>): seq<ProviderRecord> {
    SortBy(RecordRank, records)
  }

  datatype ReceiptQuorum = ReceiptQuorum(
    status: HeadStatus,
    threshold: nat,
    latest: QuorumHead,
    safe: QuorumHead,
    finalized: QuorumHead,
    providers: seq<ProviderRecord>)
  {
    function Head(tag: Tag): QuorumHead {
      match tag
      case Latest => latest
      case Safe => safe
      case Finalized => finalized
    }
  }

  function RecordsError(records: seq<ProviderRecord>, threshold: nat): Option<QuorumError> {
    if |records| < 2 || |records| > 16 then Some(ProviderCount)
    else if exists i :: 0 <= i < |records| && !Normal(records[i]) then Some(BadProvider)
    else if exists i, j :: 0 <= i < j < |records| && records[i].providerId == records[j].providerId then
      Some(DuplicateProvider)
    else if threshold < 2 || threshold > |records| then Some(ThresholdOutOfRange)
    else if threshold * 2 <= |records| then Some(NotAMajority)
    else None
  }

  function ReceiptQuorumOf(rank: Ranking, records: seq<ProviderRecord>, threshold: nat): ReceiptQuorum {
    var latest := HeadOf(rank, RecordBallots(records, Latest), threshold);
    var safe := HeadOf(rank, RecordBallots(records, Safe), threshold);
    var finalized := HeadOf(rank, RecordBallots(records, Finalized), threshold);
    ReceiptQuorum(OverallStatus(latest, safe, finalized), threshold, latest, safe, finalized, records)
  }

  method BuildRpcQuorum(rank: Ranking, records: seq<ProviderRecord>, threshold: nat)
    returns (r: Result<ReceiptQuorum, QuorumError>)
    ensures match RecordsError(records, threshold)
            case Some(e) => r == Err(e)
            case None => r == Ok(ReceiptQuorumOf(rank, SortRecords(records), threshold))
  {
    var error := RecordsError(records, threshold);
    if error.Some? { return Err(error.value); }
    var providers := SortRecords(records);
    var latest := QuorumHeadByInsertion(rank, RecordBallots(providers, Latest), threshold);
    var safe := QuorumHeadByInsertion(rank, RecordBallots(providers, Safe), threshold);
    var finalized := QuorumHeadByInsertion(rank, RecordBallots(providers, Finalized), threshold);
    return Ok(ReceiptQuorum(OverallStatus(latest, safe, finalized), threshold, latest, safe, finalized, providers));
  }

  /** The Python verifier's build_quorum. */
  method BuildQuorumByKey(rank: Ranking, records: seq<ProviderRecord>, threshold: nat)
    returns (r: Result<ReceiptQuorum, QuorumError>)
    ensures match RecordsError(records, threshold)
            case Some(e) => r == Err(e)
            case None => r == Ok(ReceiptQuorumOf(rank, SortRecords(records), threshold))
  {
    var error := RecordsError(records, threshold);
    if error.Some? { return Err(error.value); }
    var providers := SortRecords(records);
    var latest := QuorumHeadByKey(rank, RecordBallots(providers, Latest), threshold);
    var safe := QuorumHeadByKey(rank, RecordBallots(providers, Safe), threshold);
    var finalized := QuorumHeadByKey(rank, RecordBallots(providers, Finalized), threshold);
    return Ok(ReceiptQuorum(OverallStatus(latest, safe, finalized), threshold, latest, safe, finalized, providers));
  }

  /** A receipt head claims a finality, or only that some provider reported it. */
  datatype Claim = Claimed(tag: Tag) | UnknownFinality

  predicate HeadSupported(q: ReceiptQuorum, head: Header, claim: Claim) {
    match claim
    case Claimed(tag) => q.Head(tag).status == Agree && q.Head(tag).agreed == Some(head)
    case UnknownFinality =>
      exists tag, i :: 0 <= i < |q.Head(tag).groups| && q.Head(tag).groups[i].block == head
  }

  /** How a snapshot is written into a receipt: a provider with an error carries no heads. */
  function RecordOf(e: Endpoint): ProviderRecord {
    if e.error == None then ProviderRecord(e.name, true, e.latest, e.safe, e.finalized, None)
    else ProviderRecord(e.name, false, None, None, None, e.error)
  }

  function RecordsOf(endpoints: seq<Endpoint>): seq<ProviderRecord> {
    Map(RecordOf, endpoints)
  }

  lemma RecordsErrorMeans(records: seq<ProviderRecord>, threshold: nat)
    ensures match RecordsError(records, threshold)
            case None => true
            case Some(ProviderCount) => |records| < 2 || |records| > 16
            case Some(BadProvider) => exists p :: p in records && !Normal(p)
            case Some(DuplicateProvider) =>
              exists i, j :: 0 <= i < j < |records| && records[i].providerId == records[j].providerId
            case Some(ThresholdOutOfRange) => threshold < 2 || threshold > |records|
            case Some(NotAMajority) => threshold + threshold <= |records|
  {
    if i :| 0 <= i < |records| && !Normal(records[i]) {
      assert records[i] in records;
    }
  }
}
