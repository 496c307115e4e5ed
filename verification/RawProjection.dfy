/** The projector as a whole: the heads are checked, then the raw logs are taken in, put in order, decoded, and
    folded. */
module RawProjection {
  import opened Wrappers
  import opened ProtocolTypes
  import opened Finality
  import opened EventLayout
  import opened Projector
  import opened ProjectorIntake
  import R = ReorgObserver

  /** The table from signature topics to kinds of event. */
  type Signatures = Bytes32 -> Option<EventKind>

  /** The log as the decoder takes it apart. */
  function Carried(signatures: Signatures, log: R.Log): Option<RawLog> {
    if log.topics == [] then None
    else match signatures(log.topics[0])
      case None => None
      case Some(kind) => Some(RawLog(log.address, kind, log.topics[1..], log.data))
  }

  function DecodeLog(signatures: Signatures, log: R.Log): Option<Event> {
    match Carried(signatures, log)
    case None => None
    case Some(raw) => Decode(raw)
  }

  /** No log that was taken in has a negative height. */
  function Height(log: R.Log): nat {
    if log.blockNumber < 0 then 0 else log.blockNumber
  }

  function DecodeAll(signatures: Signatures, logs: seq<R.Log>): Option<seq<Logged>> {
    if logs == [] then Some([])
    else
      var n := |logs| - 1;
      var before, event := DecodeAll(signatures, logs[..n]), DecodeLog(signatures, logs[n]);
      if before == None || event == None then None else Some(before.value + [Logged(Height(logs[n]), event.value)])
  }

  /** The head a projection is made beside, and the safe and finalized heads where they are known. */
  datatype Heads = Heads(head: Header, safe: Option<Header>, finalized: Option<Header>)

  function HeadsFault(heads: Heads): Option<FinalityFault> {
    ValidateFinality(heads.head, heads.safe, heads.finalized)
  }

  datatype ProjectionFault = Incoherent(finality: FinalityFault) | Refused(fault: IntakeFault) | Undecodable

  function ProjectRaw(ids: EntitlementIds, signatures: Signatures, logs: seq<R.Log>, heads: Heads)
    : Result<Projection, ProjectionFault>
  {
    if HeadsFault(heads).Some? then Err(Incoherent(HeadsFault(heads).value))
    else match Intake(logs, heads.head)
      case Err(fault) => Err(Refused(fault))
      case Ok(sorted) =>
        var decoded := DecodeAll(signatures, sorted);
        if decoded == None then Err(Undecodable) else Ok(ProjectAll(ids, decoded.value))
  }

  method ProjectProtocolLogs(ids: EntitlementIds, signatures: Signatures, logs: seq<R.Log>, heads: Heads)
    returns (r: Result<Projection, ProjectionFault>)
    ensures r == ProjectRaw(ids, signatures, logs, heads)
  {
    hide Intake, Decode, Project;
    var incoherent := HeadsFault(heads);
    if incoherent.Some? { return Err(Incoherent(incoherent.value)); }
    var taken := TakeIn(logs, heads.head);
    if taken.Err? { return Err(Refused(taken.error)); }
    var sorted := taken.value;
    var decoded: seq<Logged> := [];
    for i := 0 to |sorted|
      invariant DecodeAll(signatures, sorted[..i]) == Some(decoded)
    {
      assert sorted[..i + 1][..i] == sorted[..i];
      var event := DecodeLog(signatures, sorted[i]);
      if event == None {
        StaysUndecoded(signatures, sorted, i + 1);
        return Err(Undecodable);
      }
      decoded := decoded + [Logged(Height(sorted[i]), event.value)];
    }
    assert sorted[..|sorted|] == sorted;
    var projector := new EventProjector(ids);
    projector.ProjectLogs(decoded);
    r := Ok(Projection(projector.challenges, projector.anomalies, projector.release, projector.paused));
  }

  lemma {:induction false} StaysUndecoded(signatures: Signatures, logs: seq<R.Log>, i: nat)
    requires i <= |logs| && DecodeAll(signatures, logs[..i]) == None
    ensures DecodeAll(signatures, logs) == None
    decreases |logs| - i
  {
    if i < |logs| {
      assert logs[..i + 1][..i] == logs[..i];
      StaysUndecoded(signatures, logs, i + 1);
    } else {
      assert logs[..i] == logs;
    }
  }

  /** The projection does not depend on the order its logs were returned in. */
  lemma ProjectionIgnoresOrder(ids: EntitlementIds, signatures: Signatures, a: seq<R.Log>, b: seq<R.Log>, heads: Heads)
    requires multiset(a) == multiset(b)
    ensures ProjectRaw(ids, signatures, a, heads).Ok? <==> ProjectRaw(ids, signatures, b, heads).Ok?
    ensures ProjectRaw(ids, signatures, a, heads).Ok? ==>
              ProjectRaw(ids, signatures, a, heads) == ProjectRaw(ids, signatures, b, heads)
  {
    hide Intake, DecodeAll, ProjectAll;
    IntakeIgnoresOrder(a, b, heads.head);
  }
}
