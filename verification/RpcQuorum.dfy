/** The RPC comparison: a checked snapshot of every provider, then one quorum head per finality tag. */
module RpcQuorum {
  import opened Wrappers
  import opened ProtocolTypes
  import opened Finality
  import opened Quorum
  import opened Sorting

  datatype RpcError =
    | FinalityTagsUnavailable | MalformedBlockHeader | LatestNumberMismatch | LatestBlockUnavailable
    | LatestBlockChanged | FinalityOrderInvalid | FinalityChainInvalid | RpcReadFailed

  /** One block read: it may throw, find nothing, or return something that is no header. */
  datatype Read = Threw | Null | NotAHeader | Got(block: Header)

  /** A provider's answers in one snapshot; number is None when reading it throws, and the head is read twice. */
  datatype HeadProvider = HeadProvider(
    hasTags: bool,
    number: Option<int>,
    latest: Read,
    safe: Read,
    finalized: Read,
    latestAgain: Read)

  datatype Endpoint = Endpoint(
    name: Name,
    latest: Option<Header>,
    safe: Option<Header>,
    finalized: Option<Header>,
    error: Option<RpcError>)
  {
    function Head(tag: Tag): Option<Header> {
      match tag
      case Latest => latest
      case Safe => safe
      case Finalized => finalized
    }
  }

  function Normalized(r: Read): Option<Header> {
    if r.Got? && InRange(r.block) then Some(r.block) else None
  }

  function Failed(name: Name, error: RpcError): Endpoint {
    Endpoint(name, None, None, None, Some(error))
  }

  function Snapshot(name: Name, p: HeadProvider): Endpoint {
    var latest, safe, finalized := Normalized(p.latest), Normalized(p.safe), Normalized(p.finalized);
    if !p.hasTags then Failed(name, FinalityTagsUnavailable)
    else if p.number == None then Failed(name, RpcReadFailed)
    else if p.number.value < 0 || p.number.value > MAX_UINT64 then Failed(name, MalformedBlockHeader)
    else if p.latest.Threw? || p.safe.Threw? || p.finalized.Threw? then Failed(name, RpcReadFailed)
    else if (!p.latest.Null? && latest == None) || (!p.safe.Null? && safe == None)
         || (!p.finalized.Null? && finalized == None) then Failed(name, MalformedBlockHeader)
    else if latest.Some? && latest.value.number != p.number.value then Failed(name, LatestNumberMismatch)
    else if latest == None then Failed(name, LatestBlockUnavailable)
    else if p.latestAgain.Threw? then Failed(name, RpcReadFailed)
    else if Normalized(p.latestAgain) != latest then Failed(name, LatestBlockChanged)
    else if safe.Some? && finalized.Some?
         && (finalized.value.number > safe.value.number || safe.value.number > latest.value.number)
    then Failed(name, FinalityOrderInvalid)
    else if safe.Some? && finalized.Some?
         && (!CoherentPair(latest.value, safe.value) || !CoherentPair(safe.value, finalized.value))
    then Failed(name, FinalityChainInvalid)
    else
      Endpoint(name, latest, safe, finalized,
               if safe == None || finalized == None then Some(FinalityTagsUnavailable) else None)
  }

  function BallotFor(e: Endpoint, tag: Tag): Ballot {
    Ballot(e.name, if e.error == None then e.Head(tag) else None)
  }

  function BallotsFor(endpoints: seq<Endpoint>, tag: Tag): (ballots: seq<Ballot>)
    ensures |ballots| == |endpoints|
    ensures forall i :: 0 <= i < |endpoints| ==> ballots[i] == BallotFor(endpoints[i], tag)
  {
    if endpoints == [] then [] else [BallotFor(endpoints[0], tag)] + BallotsFor(endpoints[1..], tag)
  }

  datatype Input = Input(name: Name, provider: HeadProvider)

  datatype QuorumError = ProviderCount | ThresholdOutOfRange | NotAMajority | DuplicateProvider | BadProvider

  datatype Report = Report(
    status: HeadStatus,
    threshold: nat,
    latest: QuorumHead,
    safe: QuorumHead,
    finalized: QuorumHead,
    endpoints: seq<Endpoint>)
  {
    function Head(tag: Tag): QuorumHead {
      match tag
      case Latest => latest
      case Safe => safe
      case Finalized => finalized
    }
  }

  function EndpointRank(e: Endpoint): int {
    Rank(e.name)
  }

  function SortEndpoints(endpoints: seq<Endpoint>): seq<Endpoint> {
    SortBy(EndpointRank, endpoints)
  }

  function Snapshots(inputs: seq<Input>): (endpoints: seq<Endpoint>)
    ensures |endpoints| == |inputs|
    ensures forall i :: 0 <= i < |inputs| ==> endpoints[i] == Snapshot(inputs[i].name, inputs[i].provider)
  {
    if inputs == [] then [] else [Snapshot(inputs[0].name, inputs[0].provider)] + Snapshots(inputs[1..])
  }

  predicate UniqueNames(inputs: seq<Input>) {
    forall i, j :: 0 <= i < j < |inputs| ==> inputs[i].name != inputs[j].name
  }

  function OverallStatus(latest: QuorumHead, safe: QuorumHead, finalized: QuorumHead): HeadStatus {
    var statuses := {latest.status, safe.status, finalized.status};
    if Conflicted in statuses then Conflicted else if Unavailable in statuses then Unavailable else Agree
  }

  function ReportOf(rank: Ranking, endpoints: seq<Endpoint>, threshold: nat): Report {
    var latest := HeadOf(rank, BallotsFor(endpoints, Latest), threshold);
    var safe := HeadOf(rank, BallotsFor(endpoints, Safe), threshold);
    var finalized := HeadOf(rank, BallotsFor(endpoints, Finalized), threshold);
    Report(OverallStatus(latest, safe, finalized), threshold, latest, safe, finalized, endpoints)
  }

  function InputError(inputs: seq<Input>, threshold: int): Option<QuorumError> {
    if |inputs| < 2 || |inputs| > 16 then Some(ProviderCount)
    else if threshold < 2 || threshold > |inputs| then Some(ThresholdOutOfRange)
    else if threshold * 2 <= |inputs| then Some(NotAMajority)
    else if !UniqueNames(inputs) then Some(DuplicateProvider)
    else None
  }

  method CompareRpcQuorum(rank: Ranking, inputs: seq<Input>, threshold: int) returns (r: Result<Report, QuorumError>)
    ensures match InputError(inputs, threshold)
            case Some(e) => r == Err(e)
            case None => threshold >= 0 && r == Ok(ReportOf(rank, SortEndpoints(Snapshots(inputs)), threshold))
  {
    var error := InputError(inputs, threshold);
    if error.Some? { return Err(error.value); }
    var endpoints := SortEndpoints(Snapshots(inputs));
    var latest := QuorumHeadByInsertion(rank, BallotsFor(endpoints, Latest), threshold);
    var safe := QuorumHeadByInsertion(rank, BallotsFor(endpoints, Safe), threshold);
    var finalized := QuorumHeadByInsertion(rank, BallotsFor(endpoints, Finalized), threshold);
    return Ok(Report(OverallStatus(latest, safe, finalized), threshold, latest, safe, finalized, endpoints));
  }

  /** An endpoint without an error has all three heads, in range, and they can stand on one chain. */
  predicate Healthy(e: Endpoint) {
    e.error == None ==>
      && e.latest.Some? && e.safe.Some? && e.finalized.Some?
      && InRange(e.latest.value) && InRange(e.safe.value) && InRange(e.finalized.value)
      && CoherentPair(e.latest.value, e.safe.value) && CoherentPair(e.safe.value, e.finalized.value)
  }

  lemma SnapshotIsHealthy(name: Name, p: HeadProvider)
    ensures Healthy(Snapshot(name, p)) && Snapshot(name, p).name == name
  {
  }

  /** A provider with finality tags that gives three headers in range, the same latest one twice under the number it
      named, and such that they can stand on one chain. */
  predicate Sincere(p: HeadProvider) {
    && p.hasTags && p.latest.Got? && p.safe.Got? && p.finalized.Got? && p.latestAgain == p.latest
    && InRange(p.latest.block) && InRange(p.safe.block) && InRange(p.finalized.block)
    && p.number == Some(p.latest.block.number)
    && CoherentPair(p.latest.block, p.safe.block) && CoherentPair(p.safe.block, p.finalized.block)
  }

  /** A snapshot has no error exactly when its provider was sincere, and then it carries the very headers given. */
  lemma SnapshotExactly(name: Name, p: HeadProvider)
    ensures Snapshot(name, p).error == None <==> Sincere(p)
    ensures Sincere(p) ==>
              Snapshot(name, p)
              == Endpoint(name, Some(p.latest.block), Some(p.safe.block), Some(p.finalized.block), None)
  {
  }

  /** A snapshot with an error carries no header, unless only a tag was missing. */
  lemma FailedSnapshot(name: Name, p: HeadProvider)
    ensures var e := Snapshot(name, p);
            && (e.error.Some? && e.error != Some(FinalityTagsUnavailable) ==>
                  e.latest == None && e.safe == None && e.finalized == None)
            && (e.error == Some(FinalityTagsUnavailable) <==> !p.hasTags || LacksOnlyTags(p))
  {
  }

  /** A provider whose latest header is in order, while no safe or no finalized one was found. */
  predicate LacksOnlyTags(p: HeadProvider) {
    && p.hasTags && p.latest.Got? && p.latestAgain == p.latest && InRange(p.latest.block)
    && p.number == Some(p.latest.block.number)
    && (p.safe.Null? || p.finalized.Null?)
    && (p.safe.Got? ==> InRange(p.safe.block)) && (p.finalized.Got? ==> InRange(p.finalized.block))
    && (p.safe.Null? || p.safe.Got?) && (p.finalized.Null? || p.finalized.Got?)
  }

  /** Two to sixteen providers of different names, and a threshold that is more than half of them and no more than all. */
  lemma InputsExactly(inputs: seq<Input>, threshold: int)
    ensures InputError(inputs, threshold) == None
       <==> 2 <= |inputs| <= 16 && |inputs| < threshold + threshold && threshold <= |inputs| && UniqueNames(inputs)
  {
  }

  /** What each error of a snapshot says of the provider's answers. */
  lemma SnapshotErrorMeans(name: Name, p: HeadProvider)
    ensures match Snapshot(name, p).error
            case None => Sincere(p)
            case Some(FinalityTagsUnavailable) => !p.hasTags || p.safe.Null? || p.finalized.Null?
            case Some(RpcReadFailed) =>
              p.number == None || Threw in {p.latest, p.safe, p.finalized, p.latestAgain}
            case Some(MalformedBlockHeader) =>
              || p.number.value < 0 || p.number.value > MAX_UINT64
              || Malformed(p.latest) || Malformed(p.safe) || Malformed(p.finalized)
            case Some(LatestNumberMismatch) => p.latest.Got? && p.number != Some(p.latest.block.number)
            case Some(LatestBlockUnavailable) => p.latest.Null?
            case Some(LatestBlockChanged) => p.latest.Got? && p.latestAgain != p.latest
            case Some(FinalityOrderInvalid) =>
              p.latest.Got? && p.safe.Got? && p.finalized.Got?
              && !(p.finalized.block.number <= p.safe.block.number <= p.latest.block.number)
            case Some(FinalityChainInvalid) =>
              && p.latest.Got? && p.safe.Got? && p.finalized.Got?
              && p.finalized.block.number <= p.safe.block.number <= p.latest.block.number
              && !(CoherentPair(p.latest.block, p.safe.block) && CoherentPair(p.safe.block, p.finalized.block))
  {
  }

  predicate Malformed(r: Read) {
    r.NotAHeader? || (r.Got? && !InRange(r.block))
  }

  lemma InputErrorMeans(inputs: seq<Input>, threshold: int)
    ensures match InputError(inputs, threshold)
            case None => true
            case Some(ProviderCount) => |inputs| < 2 || |inputs| > 16
            case Some(ThresholdOutOfRange) => threshold < 2 || threshold > |inputs|
            case Some(NotAMajority) => threshold + threshold <= |inputs|
            case Some(DuplicateProvider) => exists i, j :: 0 <= i < j < |inputs| && inputs[i].name == inputs[j].name
            case Some(BadProvider) => false
  {
  }
}
