/** Grouping reported heads under a strict-majority threshold. Provider names stand in one fixed total order, as
    natural numbers; rank is the fixed order of blocks. */
module Quorum {
  import opened Wrappers
  import opened ProtocolTypes
  import opened Finality
  import opened Sorting

  type Name = nat

  /** The fixed order in which groups are listed. */
  type Ranking = Header -> int

  /** What one provider says for one tag; None when it is unavailable. */
  datatype Ballot = Ballot(name: Name, block: Option<Header>)

  datatype Group = Group(block: Header, providers: seq<Name>)

  datatype HeadStatus = Agree | Conflicted | Unavailable

  datatype QuorumHead = QuorumHead(
    status: HeadStatus,
    agreed: Option<Header>,
    supporters: seq<Name>,
    dissenters: seq<Name>,
    unavailable: seq<Name>,
    groups: seq<Group>)

  // ---------- Sorting ----------

  function Rank(name: Name): int {
    name
  }

  function SortNames(names: seq<Name>): seq<Name> {
    SortBy(Rank, names)
  }

  function GroupRank(rank: Ranking): Group -> int {
    (g: Group) => rank(g.block)
  }

  function SortGroups(rank: Ranking, groups: seq<Group>): seq<Group> {
    SortBy(GroupRank(rank), groups)
  }

  // ---------- Counting votes ----------

  /** The providers that reported a block, in the order given. */
  function Supporters(ballots: seq<Ballot>, b: Header): seq<Name> {
    if ballots == [] then []
    else
      var last := ballots[|ballots| - 1];
      Supporters(ballots[..|ballots| - 1], b) + if last.block == Some(b) then [last.name] else []
  }

  function Absent(ballots: seq<Ballot>): seq<Name> {
    if ballots == [] then []
    else
      var last := ballots[|ballots| - 1];
      Absent(ballots[..|ballots| - 1]) + if last.block == None then [last.name] else []
  }

  /** The reported blocks, each once, in the order first reported. */
  function Reported(ballots: seq<Ballot>): (blocks: seq<Header>)
    ensures forall i, j :: 0 <= i < j < |blocks| ==> blocks[i] != blocks[j]
    ensures forall b :: b in blocks <==> Supporters(ballots, b) != []
  {
    if ballots == [] then []
    else
      var last := ballots[|ballots| - 1];
      var earlier := Reported(ballots[..|ballots| - 1]);
      if last.block.Some? && last.block.value !in earlier then earlier + [last.block.value] else earlier
  }

  /** The groups, listed by rank. */
  function Groups(rank: Ranking, ballots: seq<Ballot>): seq<Group> {
    SortGroups(rank, GroupsOf(ballots, Reported(ballots)))
  }

  /** The group of a block: its supporters, sorted. */
  function GroupOn(ballots: seq<Ballot>): Header -> Group {
    (b: Header) => Group(b, SortNames(Supporters(ballots, b)))
  }

  function GroupsOf(ballots: seq<Ballot>, blocks: seq<Header>): seq<Group> {
    Map(GroupOn(ballots), blocks)
  }

  function Winning(groups: seq<Group>, threshold: nat): seq<Group> {
    if groups == [] then []
    else (if |groups[0].providers| >= threshold then [groups[0]] else []) + Winning(groups[1..], threshold)
  }

  function AllProviders(groups: seq<Group>): seq<Name> {
    if groups == [] then [] else groups[0].providers + AllProviders(groups[1..])
  }

  function Without(names: seq<Name>, dropped: seq<Name>): seq<Name> {
    if names == [] then [] else (if names[0] in dropped then [] else [names[0]]) + Without(names[1..], dropped)
  }

  function Verdict(groups: seq<Group>, unavailable: seq<Name>, threshold: nat): QuorumHead {
    var winning := Winning(groups, threshold);
    if |winning| == 1 then
      QuorumHead(Agree, Some(winning[0].block), winning[0].providers,
                 SortNames(Without(AllProviders(groups), winning[0].providers)), unavailable, groups)
    else
      QuorumHead(if |groups| > 1 then Conflicted else Unavailable, None, [], SortNames(AllProviders(groups)),
                 unavailable, groups)
  }

  function HeadOf(rank: Ranking, ballots: seq<Ballot>, threshold: nat): QuorumHead {
    Verdict(Groups(rank, ballots), SortNames(Absent(ballots)), threshold)
  }

  // ---------- Two ways of grouping ----------

  /** One more vote in the map of groups, and the keys in the order they were first seen. */
  method CollectVotes(ballots: seq<Ballot>) returns (grouped: map<Header, seq<Name>>, order: seq<Header>)
    ensures order == Reported(ballots)
    ensures forall b :: b in grouped <==> b in order
    ensures forall b :: b in grouped ==> grouped[b] == Supporters(ballots, b)
  {
    grouped, order := map[], [];
    for i := 0 to |ballots|
      invariant order == Reported(ballots[..i])
      invariant forall b :: b in grouped <==> b in order
      invariant forall b :: b in grouped ==> grouped[b] == Supporters(ballots[..i], b)
    {
      var ballot := ballots[i];
      assert ballots[..i + 1][..i] == ballots[..i];
      if ballot.block.Some? {
        var block := ballot.block.value;
        if block in grouped {
          grouped := grouped[block := grouped[block] + [ballot.name]];
        } else {
          order := order + [block];
          grouped := grouped[block := [ballot.name]];
        }
      }
    }
    assert ballots[..|ballots|] == ballots;
  }

  method CollectAbsent(ballots: seq<Ballot>) returns (unavailable: seq<Name>)
    ensures unavailable == Absent(ballots)
  {
    unavailable := [];
    for i := 0 to |ballots|
      invariant unavailable == Absent(ballots[..i])
    {
      assert ballots[..i + 1][..i] == ballots[..i];
      if ballots[i].block == None { unavailable := unavailable + [ballots[i].name]; }
    }
    assert ballots[..|ballots|] == ballots;
  }

  /** One group per key, in the order of the keys, its providers sorted. */
  method BuildGroups(ghost ballots: seq<Ballot>, grouped: map<Header, seq<Name>>, keys: seq<Header>)
    returns (groups: seq<Group>)
    requires forall b :: b in keys ==> b in grouped && grouped[b] == Supporters(ballots, b)
    ensures groups == GroupsOf(ballots, keys)
  {
    hide Supporters, SortNames;
    groups := [];
    for i := 0 to |keys|
      invariant groups == GroupsOf(ballots, keys[..i])
    {
      assert keys[i] in keys;
      MapAppend(GroupOn(ballots), keys[..i], keys[i]);
      assert keys[..i + 1] == keys[..i] + [keys[i]];
      groups := groups + [Group(keys[i], SortNames(grouped[keys[i]]))];
    }
    assert keys[..|keys|] == keys;
  }

  /** The grouping of the RPC comparison and of the receipt builder: groups in insertion order, then sorted. */
  method QuorumHeadByInsertion(rank: Ranking, ballots: seq<Ballot>, threshold: nat) returns (head: QuorumHead)
    ensures head == HeadOf(rank, ballots, threshold)
  {
    var unavailable := CollectAbsent(ballots);
    var grouped, order := CollectVotes(ballots);
    var groups := BuildGroups(ballots, grouped, order);
    head := Verdict(SortGroups(rank, groups), SortNames(unavailable), threshold);
  }

  /** The grouping of the Python verifier: keys sorted first, groups built in that order. */
  method QuorumHeadByKey(rank: Ranking, ballots: seq<Ballot>, threshold: nat) returns (head: QuorumHead)
    ensures head == HeadOf(rank, ballots, threshold)
  {
    var unavailable := CollectAbsent(ballots);
    var grouped, order := CollectVotes(ballots);
    var keys := SortBy(rank, order);
    SortByIs(rank, order);
    var groups := BuildGroups(ballots, grouped, keys);
    SortThenMap(GroupOn(ballots), rank, GroupRank(rank), order);
    head := Verdict(groups, SortNames(unavailable), threshold);
  }
}
