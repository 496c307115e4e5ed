/** The quorum does not depend on the order providers are given in, and a receipt recomputes the comparison it was
    written from. */
module QuorumAgreement {
  import opened Wrappers
  import opened ProtocolTypes
  import opened Finality
  import opened Quorum
  import opened RpcQuorum
  import opened Receipt
  import opened QuorumSafety
  import opened Sorting

  // ---------- The order of providers ----------

  /** The records that make a receipt are exactly those that the snapshots of some valid comparison are written as. */
  lemma RecordsExactly(records: seq<ProviderRecord>, threshold: nat)
    ensures RecordsError(records, threshold) == None
       <==> exists inputs :: InputError(inputs, threshold) == None && RecordsOf(Snapshots(inputs)) == records
  {
    hide Snapshot, Normal, RecordOf;
    if RecordsError(records, threshold) == None {
      var inputs := seq(|records|, i requires 0 <= i < |records| => InputOf(records[i]));
      forall i | 0 <= i < |records|
        ensures inputs[i].name == records[i].providerId
        ensures RecordOf(Snapshot(inputs[i].name, inputs[i].provider)) == records[i]
      {
        assert Normal(records[i]);
        InputGives(records[i]);
      }
      assert RecordsOf(Snapshots(inputs)) == records;
      assert InputError(inputs, threshold) == None;
    }
    forall inputs | InputError(inputs, threshold) == None && RecordsOf(Snapshots(inputs)) == records
      ensures RecordsError(records, threshold) == None
    {
      WrittenIsValid(inputs, threshold);
    }
  }

  /** A comparison's input whose snapshot is written as this record. */
  function InputOf(p: ProviderRecord): Input {
    Input(p.providerId, if Normal(p) && p.available then Faithful(p)
                        else Failing(if p.error.Some? then p.error.value else RpcReadFailed))
  }

  lemma InputGives(p: ProviderRecord)
    requires Normal(p)
    ensures RecordOf(Snapshot(p.providerId, InputOf(p).provider)) == p
  {
  }

  /** A receipt's quorum is the same however its providers are ordered. */
  lemma ReceiptIgnoresOrder(rank: Ranking, a: seq<ProviderRecord>, b: seq<ProviderRecord>, threshold: nat)
    requires multiset(a) == multiset(b) && RecordsError(a, threshold) == None
    ensures RecordsError(b, threshold) == None
    ensures ReceiptQuorumOf(rank, SortRecords(a), threshold) == ReceiptQuorumOf(rank, SortRecords(b), threshold)
  {
    PermutedRecords(a, b, threshold);
    forall p
      ensures p in a <==> p in b
    {
      assert p in a <==> p in multiset(a);
    }
    SortByForgetsOrder(RecordRank, a, b);
  }

  lemma PermutedRecords(a: seq<ProviderRecord>, b: seq<ProviderRecord>, threshold: nat)
    requires multiset(a) == multiset(b) && RecordsError(a, threshold) == None
    ensures RecordsError(b, threshold) == None && Apart(RecordRank, a) && Apart(RecordRank, b)
  {
    assert |multiset(a)| == |a| && |multiset(b)| == |b|;
    forall i | 0 <= i < |b|
      ensures Normal(b[i])
    {
      assert b[i] in multiset(b) && b[i] in a;
    }
    assert Apart(RecordRank, a);
    forall i, j | 0 <= i < j < |b|
      ensures b[i].providerId != b[j].providerId
    {
      assert b[i] in multiset(b) && b[j] in multiset(b);
      assert b[i] in a && b[j] in a;
      if b[i] == b[j] {
        RepeatedTwice(b, i, j);
        TwiceRepeats(a, b[i]);
      }
    }
  }

  lemma RepeatedTwice(s: seq<ProviderRecord>, i: nat, j: nat)
    requires i < j < |s| && s[i] == s[j]
    ensures multiset(s)[s[i]] >= 2
  {
    assert s == s[..j] + s[j..];
    assert s[i] in s[..j] && s[j] in s[j..];
  }

  lemma {:induction false} TwiceRepeats(s: seq<ProviderRecord>, p: ProviderRecord)
    requires multiset(s)[p] >= 2
    ensures exists i, j :: 0 <= i < j < |s| && s[i] == s[j] == p
  {
    assert s == [s[0]] + s[1..];
    if s[0] == p {
      assert p in multiset(s[1..]);
      var j :| 0 <= j < |s[1..]| && s[1..][j] == p;
      assert s[0] == s[j + 1] == p;
    } else {
      TwiceRepeats(s[1..], p);
      var i, j :| 0 <= i < j < |s[1..]| && s[1..][i] == s[1..][j] == p;
      assert s[i + 1] == s[j + 1] == p;
    }
  }

  // ---------- From a comparison to a receipt ----------

  const GENESIS := Header(0, 1, 0)
  const OTHER := Header(0, 2, 0)

  /** A provider whose snapshot fails in a given way. */
  function Failing(error: RpcError): HeadProvider {
    var good := HeadProvider(true, Some(0), Got(GENESIS), Got(GENESIS), Got(GENESIS), Got(GENESIS));
    match error
    case FinalityTagsUnavailable => good.(hasTags := false)
    case MalformedBlockHeader => good.(latest := NotAHeader)
    case LatestNumberMismatch => good.(number := Some(1))
    case LatestBlockUnavailable => good.(latest := Null)
    case LatestBlockChanged => good.(latestAgain := Got(OTHER))
    case FinalityOrderInvalid => good.(safe := Got(Header(1, 2, 1)))
    case FinalityChainInvalid => good.(safe := Got(OTHER))
    case RpcReadFailed => good.(number := None)
  }

  function Faithful(p: ProviderRecord): HeadProvider
    requires Normal(p) && p.available
  {
    HeadProvider(true, Some(p.latest.value.number), Got(p.latest.value), Got(p.safe.value), Got(p.finalized.value),
                 Got(p.latest.value))
  }

  /** The provider records a receipt may hold are exactly those that some provider's snapshot is written as. */
  lemma NormalExactly(p: ProviderRecord)
    ensures Normal(p) <==> exists provider :: RecordOf(Snapshot(p.providerId, provider)) == p
  {
    if Normal(p) {
      var provider := if p.available then Faithful(p) else Failing(p.error.value);
      assert RecordOf(Snapshot(p.providerId, provider)) == p;
    }
    forall provider | RecordOf(Snapshot(p.providerId, provider)) == p
      ensures Normal(p)
    {
      WrittenIsNormal(p.providerId, provider);
    }
  }

  /** Sorting snapshots and writing them down is writing them down and sorting. */
  lemma SortThenWrite(endpoints: seq<Endpoint>)
    ensures RecordsOf(SortEndpoints(endpoints)) == SortRecords(RecordsOf(endpoints))
  {
    SortThenMap(RecordOf, EndpointRank, RecordRank, endpoints);
  }

  /** A written provider votes as its snapshot did. */
  lemma SameBallots(endpoints: seq<Endpoint>, tag: Tag)
    ensures RecordBallots(RecordsOf(endpoints), tag) == BallotsFor(endpoints, tag)
  {
  }

  lemma WrittenIsNormal(name: Name, p: HeadProvider)
    ensures Normal(RecordOf(Snapshot(name, p)))
  {
  }

  lemma WrittenIsValid(inputs: seq<Input>, threshold: nat)
    requires InputError(inputs, threshold) == None
    ensures RecordsError(RecordsOf(Snapshots(inputs)), threshold) == None
  {
    var written := RecordsOf(Snapshots(inputs));
    forall i | 0 <= i < |written|
      ensures Normal(written[i])
    {
      WrittenIsNormal(inputs[i].name, inputs[i].provider);
    }
    forall i | 0 <= i < |written|
      ensures written[i].providerId == inputs[i].name
    {
      SnapshotIsHealthy(inputs[i].name, inputs[i].provider);
    }
  }

  /** Written down in any order, the snapshots of a comparison make a receipt with the comparison's own heads. */
  lemma ReceiptMatchesComparison(rank: Ranking, inputs: seq<Input>, threshold: nat, records: seq<ProviderRecord>)
    requires InputError(inputs, threshold) == None && multiset(records) == multiset(RecordsOf(Snapshots(inputs)))
    ensures RecordsError(records, threshold) == None
    ensures var q := ReceiptQuorumOf(rank, SortRecords(records), threshold);
            var r := ReportOf(rank, SortEndpoints(Snapshots(inputs)), threshold);
            q.status == r.status && forall tag :: q.Head(tag) == r.Head(tag)
  {
    hide RecordsError, InputError, Snapshots, SortEndpoints, SortRecords, RecordsOf, HeadOf, OverallStatus;
    var endpoints := Snapshots(inputs);
    WrittenIsValid(inputs, threshold);
    ReceiptIgnoresOrder(rank, RecordsOf(endpoints), records, threshold);
    SortThenWrite(endpoints);
    SameBallots(SortEndpoints(endpoints), Latest);
    SameBallots(SortEndpoints(endpoints), Safe);
    SameBallots(SortEndpoints(endpoints), Finalized);
  }

  /** The comparison does not depend on the order of the providers either. */
  lemma ComparisonIgnoresOrder(rank: Ranking, a: seq<Input>, b: seq<Input>, threshold: nat)
    requires InputError(a, threshold) == None && InputError(b, threshold) == None
    requires forall x :: x in a <==> x in b
    ensures ReportOf(rank, SortEndpoints(Snapshots(a)), threshold)
         == ReportOf(rank, SortEndpoints(Snapshots(b)), threshold)
  {
    SnapshotNames(a);
    SnapshotNames(b);
    SnapshotsHave(a, b);
    SnapshotsHave(b, a);
    SortByForgetsOrder(EndpointRank, Snapshots(a), Snapshots(b));
  }

  lemma SnapshotNames(inputs: seq<Input>)
    requires UniqueNames(inputs)
    ensures Apart(EndpointRank, Snapshots(inputs))
  {
    forall i | 0 <= i < |inputs|
      ensures Snapshots(inputs)[i].name == inputs[i].name
    {
      SnapshotIsHealthy(inputs[i].name, inputs[i].provider);
    }
  }

  lemma SnapshotsHave(a: seq<Input>, b: seq<Input>)
    requires forall x :: x in a ==> x in b
    ensures forall e :: e in Snapshots(a) ==> e in Snapshots(b)
  {
    forall e | e in Snapshots(a)
      ensures e in Snapshots(b)
    {
      var i :| 0 <= i < |a| && Snapshots(a)[i] == e;
      assert a[i] in a && a[i] in b;
      var j :| 0 <= j < |b| && b[j] == a[i];
      assert Snapshots(b)[j] == e;
    }
  }

  // ---------- What the comparison and a receipt head guarantee ----------

  function Given(p: HeadProvider, tag: Tag): Read {
    match tag
    case Latest => p.latest
    case Safe => p.safe
    case Finalized => p.finalized
  }

  predicate Gives(p: HeadProvider, tag: Tag, b: Header) {
    Sincere(p) && Given(p, tag) == Got(b)
  }

  /** The sincere providers that give a block under a tag. */
  function Givers(inputs: seq<Input>, tag: Tag, b: Header): set<Name> {
    set i | 0 <= i < |inputs| && Gives(inputs[i].provider, tag, b) :: inputs[i].name
  }

  lemma SnapshotVote(input: Input, tag: Tag)
    ensures Sincere(input.provider) ==> Given(input.provider, tag).Got?
    ensures BallotFor(Snapshot(input.name, input.provider), tag)
         == Ballot(input.name, if Sincere(input.provider) then Some(Given(input.provider, tag).block) else None)
  {
    SnapshotExactly(input.name, input.provider);
    SnapshotIsHealthy(input.name, input.provider);
  }

  lemma SnapshotAt(inputs: seq<Input>, e: Endpoint)
    ensures e in SortEndpoints(Snapshots(inputs))
       <==> exists i :: 0 <= i < |inputs| && e == Snapshot(inputs[i].name, inputs[i].provider)
  {
    hide Snapshot, SortBy;
    SortByIs(EndpointRank, Snapshots(inputs));
    if i :| 0 <= i < |inputs| && e == Snapshot(inputs[i].name, inputs[i].provider) {
      assert Snapshots(inputs)[i] == e;
    }
  }

  lemma GiverVotes(inputs: seq<Input>, tag: Tag, b: Header, i: nat)
    requires i < |inputs| && Gives(inputs[i].provider, tag, b)
    ensures inputs[i].name in Supporters(BallotsFor(SortEndpoints(Snapshots(inputs)), tag), b)
  {
    hide Snapshot, Sincere, Supporters, SortEndpoints;
    var sorted := SortEndpoints(Snapshots(inputs));
    var e := Snapshot(inputs[i].name, inputs[i].provider);
    SnapshotAt(inputs, e);
    SnapshotVote(inputs[i], tag);
    var j :| 0 <= j < |sorted| && sorted[j] == e;
    SupportersHas(BallotsFor(sorted, tag), b);
    assert BallotsFor(sorted, tag)[j] == Ballot(inputs[i].name, Some(b));
  }

  lemma VoterGave(inputs: seq<Input>, tag: Tag, b: Header, n: Name)
    requires n in Supporters(BallotsFor(SortEndpoints(Snapshots(inputs)), tag), b)
    ensures n in Givers(inputs, tag, b)
  {
    hide Snapshot, Sincere, Supporters, SortEndpoints;
    var sorted := SortEndpoints(Snapshots(inputs));
    var ballots := BallotsFor(sorted, tag);
    SupportersHas(ballots, b);
    var j :| 0 <= j < |ballots| && ballots[j] == Ballot(n, Some(b));
    assert sorted[j] in sorted;
    SnapshotAt(inputs, sorted[j]);
    var i :| 0 <= i < |inputs| && sorted[j] == Snapshot(inputs[i].name, inputs[i].provider);
    SnapshotVote(inputs[i], tag);
    SnapshotIsHealthy(inputs[i].name, inputs[i].provider);
  }

  lemma SortedVotes(inputs: seq<Input>, tag: Tag, b: Header, n: Name)
    ensures n in Supporters(BallotsFor(SortEndpoints(Snapshots(inputs)), tag), b) <==> n in Givers(inputs, tag, b)
  {
    hide Supporters, SortEndpoints, BallotsFor, Gives, Snapshots;
    if n in Givers(inputs, tag, b) {
      var i :| 0 <= i < |inputs| && Gives(inputs[i].provider, tag, b) && inputs[i].name == n;
      GiverVotes(inputs, tag, b, i);
    }
    if n in Supporters(BallotsFor(SortEndpoints(Snapshots(inputs)), tag), b) {
      VoterGave(inputs, tag, b, n);
    }
  }

  lemma SortedVoters(inputs: seq<Input>, tag: Tag)
    requires UniqueNames(inputs)
    ensures UniqueVoters(BallotsFor(SortEndpoints(Snapshots(inputs)), tag))
    ensures |BallotsFor(SortEndpoints(Snapshots(inputs)), tag)| == |inputs|
  {
    SnapshotNames(inputs);
    SortByIs(EndpointRank, Snapshots(inputs));
    SortByKeepsApart(EndpointRank, EndpointRank, Snapshots(inputs));
  }

  lemma {:induction false} ApartCounts(names: seq<Name>, all: set<Name>)
    requires Apart(Rank, names) && forall n :: n in all <==> n in names
    ensures |names| == |all|
  {
    if names != [] {
      assert names == [names[0]] + names[1..];
      assert names[0] !in names[1..];
      ApartCounts(names[1..], all - {names[0]});
    }
  }

  /** A head of a comparison agrees on a block exactly when a threshold of sincere providers gives it. */
  lemma AgreesOnGiven(rank: Ranking, inputs: seq<Input>, threshold: nat, tag: Tag, b: Header)
    requires InputError(inputs, threshold) == None
    ensures ReportOf(rank, SortEndpoints(Snapshots(inputs)), threshold).Head(tag).agreed == Some(b)
       <==> |Givers(inputs, tag, b)| >= threshold
  {
    hide Supporters, HeadOf, Givers, SortEndpoints, Snapshots, BallotsFor;
    var ballots := BallotsFor(SortEndpoints(Snapshots(inputs)), tag);
    SortedVoters(inputs, tag);
    SupportersHas(ballots, b);
    forall n
      ensures n in Supporters(ballots, b) <==> n in Givers(inputs, tag, b)
    {
      SortedVotes(inputs, tag, b, n);
    }
    ApartCounts(Supporters(ballots, b), Givers(inputs, tag, b));
    AgreesExactly(rank, ballots, threshold, b);
  }

  /** When a threshold of providers answers from one chain, the comparison agrees on that chain's heads, whatever the
      others answer. */
  lemma HonestThresholdAgrees(rank: Ranking, inputs: seq<Input>, threshold: nat, honest: HeadProvider, names: set<Name>)
    requires InputError(inputs, threshold) == None && Sincere(honest) && |names| >= threshold
    requires forall n :: n in names ==> Input(n, honest) in inputs
    ensures var r := ReportOf(rank, SortEndpoints(Snapshots(inputs)), threshold);
            && r.status == Agree
            && r.latest.agreed == Some(honest.latest.block) && r.safe.agreed == Some(honest.safe.block)
            && r.finalized.agreed == Some(honest.finalized.block)
  {
    hide HeadOf, SortEndpoints, Snapshots, BallotsFor, Givers;
    var endpoints := SortEndpoints(Snapshots(inputs));
    forall tag
      ensures ReportOf(rank, endpoints, threshold).Head(tag).agreed == Some(Given(honest, tag).block)
      ensures ReportOf(rank, endpoints, threshold).Head(tag).status == Agree
    {
      var b := Given(honest, tag).block;
      HonestGive(inputs, honest, names, tag);
      AgreesOnGiven(rank, inputs, threshold, tag, b);
      SortedVoters(inputs, tag);
      AgreesExactly(rank, BallotsFor(endpoints, tag), threshold, b);
    }
    var r := ReportOf(rank, endpoints, threshold);
    assert r.Head(Latest) == r.latest && r.Head(Safe) == r.safe && r.Head(Finalized) == r.finalized;
  }

  lemma HonestGive(inputs: seq<Input>, honest: HeadProvider, names: set<Name>, tag: Tag)
    requires Sincere(honest) && forall n :: n in names ==> Input(n, honest) in inputs
    ensures |Givers(inputs, tag, Given(honest, tag).block)| >= |names|
  {
    var givers := Givers(inputs, tag, Given(honest, tag).block);
    forall n | n in names
      ensures n in givers
    {
      var i :| 0 <= i < |inputs| && inputs[i] == Input(n, honest);
      assert Gives(inputs[i].provider, tag, Given(honest, tag).block);
    }
    assert givers == names + (givers - names);
  }

  /** A comparison whose three heads agree yields a triple the projector accepts. */
  lemma ComparisonIsCoherent(rank: Ranking, inputs: seq<Input>, threshold: nat)
    requires InputError(inputs, threshold) == None
    requires ReportOf(rank, SortEndpoints(Snapshots(inputs)), threshold).status == Agree
    ensures var r := ReportOf(rank, SortEndpoints(Snapshots(inputs)), threshold);
            && r.latest.agreed.Some? && r.safe.agreed.Some? && r.finalized.agreed.Some?
            && ValidateFinality(r.latest.agreed.value, r.safe.agreed, r.finalized.agreed) == None
  {
    hide ReportOf;
    SortByIs(EndpointRank, Snapshots(inputs));
    forall e | e in SortEndpoints(Snapshots(inputs))
      ensures Healthy(e)
    {
      var i :| 0 <= i < |inputs| && Snapshots(inputs)[i] == e;
      SnapshotIsHealthy(inputs[i].name, inputs[i].provider);
    }
    AgreedReportIsCoherent(rank, SortEndpoints(Snapshots(inputs)), threshold);
  }

  function Reporters(records: seq<ProviderRecord>, tag: Tag, b: Header): seq<Name> {
    Supporters(RecordBallots(records, tag), b)
  }

  /** A receipt head is supported under a tag exactly when a strict majority reported it, and without one exactly when
      some provider reported it under some tag. */
  lemma ReceiptHeadMeans(rank: Ranking, records: seq<ProviderRecord>, threshold: nat, head: Header)
    requires 0 < threshold && |records| < threshold * 2
    ensures var q := ReceiptQuorumOf(rank, records, threshold);
            && (forall tag :: HeadSupported(q, head, Claimed(tag)) <==> |Reporters(records, tag, head)| >= threshold)
            && (HeadSupported(q, head, UnknownFinality) <==>
                  exists tag, p :: p in records && p.available && p.Head(tag) == Some(head))
  {
    hide ReceiptQuorumOf, Reporters;
    var q := ReceiptQuorumOf(rank, records, threshold);
    forall tag
      ensures HeadSupported(q, head, Claimed(tag)) <==> |Reporters(records, tag, head)| >= threshold
      ensures (exists g :: g in q.Head(tag).groups && g.block == head)
              <==> exists p :: p in records && p.available && p.Head(tag) == Some(head)
    {
      TagMeans(rank, records, threshold, tag, head);
    }
    if HeadSupported(q, head, UnknownFinality) {
      var tag, i :| 0 <= i < |q.Head(tag).groups| && q.Head(tag).groups[i].block == head;
      assert q.Head(tag).groups[i] in q.Head(tag).groups;
    }
    if tag, p :| p in records && p.available && p.Head(tag) == Some(head) {
      var g :| g in q.Head(tag).groups && g.block == head;
      var i :| 0 <= i < |q.Head(tag).groups| && q.Head(tag).groups[i] == g;
    }
  }

  lemma TagMeans(rank: Ranking, records: seq<ProviderRecord>, threshold: nat, tag: Tag, head: Header)
    requires 0 < threshold && |records| < threshold * 2
    ensures var q := ReceiptQuorumOf(rank, records, threshold);
            && (HeadSupported(q, head, Claimed(tag)) <==> |Reporters(records, tag, head)| >= threshold)
            && ((exists g :: g in q.Head(tag).groups && g.block == head)
                <==> exists p :: p in records && p.available && p.Head(tag) == Some(head))
  {
    hide HeadOf, Supporters, Groups;
    AgreesExactly(rank, RecordBallots(records, tag), threshold, head);
    GroupsListed(rank, records, threshold, tag, head);
    ReportersAre(records, tag, head);
  }

  lemma GroupsListed(rank: Ranking, records: seq<ProviderRecord>, threshold: nat, tag: Tag, b: Header)
    ensures var groups := HeadOf(rank, RecordBallots(records, tag), threshold).groups;
            (exists g :: g in groups && g.block == b) <==> Reporters(records, tag, b) != []
  {
    hide Supporters, Groups, SortNames;
    GroupsAre(rank, RecordBallots(records, tag));
    var groups := Groups(rank, RecordBallots(records, tag));
    if g :| g in groups && g.block == b {
      assert g == Group(b, SortNames(Supporters(RecordBallots(records, tag), b)));
    }
  }

  lemma ReportersAre(records: seq<ProviderRecord>, tag: Tag, b: Header)
    ensures Reporters(records, tag, b) != [] <==> exists p :: p in records && p.available && p.Head(tag) == Some(b)
  {
    var ballots := RecordBallots(records, tag);
    SupportersHas(ballots, b);
    if Reporters(records, tag, b) != [] {
      var n := Reporters(records, tag, b)[0];
      var i :| 0 <= i < |ballots| && ballots[i] == Ballot(n, Some(b));
      assert records[i] in records && records[i].available && records[i].Head(tag) == Some(b);
    }
    if p :| p in records && p.available && p.Head(tag) == Some(b) {
      var i :| 0 <= i < |records| && records[i] == p;
      assert ballots[i] == Ballot(p.providerId, Some(b));
      assert p.providerId in Supporters(ballots, b);
    }
  }
}
