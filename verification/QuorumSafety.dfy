/** What a strict majority buys: one winner at most, a provider in common between any two agreed heads, and so agreed
    heads that can stand on one chain. */
module QuorumSafety {
  import opened Wrappers
  import opened ProtocolTypes
  import opened Finality
  import opened Quorum
  import opened RpcQuorum
  import opened Receipt
  import opened Sorting

  // ---------- Lists ----------

  /** Sorting permutes and puts in order. */
  lemma SortNamesIs(names: seq<Name>)
    ensures multiset(SortNames(names)) == multiset(names) && |SortNames(names)| == |names|
    ensures Ascends(Rank, SortNames(names))
  {
    SortByIs(Rank, names);
  }

  lemma SortNamesHas(names: seq<Name>, name: Name)
    ensures name in SortNames(names) <==> name in names
  {
    SortByIs(Rank, names);
  }

  // ---------- Votes ----------

  predicate Voted(ballots: seq<Ballot>, i: nat, b: Header) {
    i < |ballots| && ballots[i].block == Some(b)
  }

  /** Two blocks cannot together have more votes than there are ballots. */
  lemma {:induction false} VotesAreShared(ballots: seq<Ballot>, a: Header, b: Header)
    requires a != b
    ensures |Supporters(ballots, a)| + |Supporters(ballots, b)| <= |ballots|
  {
    if ballots != [] {
      VotesAreShared(ballots[..|ballots| - 1], a, b);
    }
  }

  /** Two majorities on the same providers have one in common. */
  lemma {:induction false} MajoritiesMeet(newer: seq<Ballot>, older: seq<Ballot>, a: Header, b: Header)
    requires |newer| == |older|
    requires |Supporters(newer, a)| + |Supporters(older, b)| > |newer|
    ensures exists i: nat :: Voted(newer, i, a) && Voted(older, i, b)
  {
    var n := |newer| - 1;
    if newer != [] && !(Voted(newer, n, a) && Voted(older, n, b)) {
      MajoritiesMeet(newer[..n], older[..n], a, b);
      var i: nat :| Voted(newer[..n], i, a) && Voted(older[..n], i, b);
      assert Voted(newer, i, a) && Voted(older, i, b);
    }
  }

  // ---------- Groups ----------

  predicate Distinct(groups: seq<Group>) {
    forall i, j :: 0 <= i < j < |groups| ==> groups[i].block != groups[j].block
  }

  /** Each group lists the sorted supporters of its block. */
  predicate True(ballots: seq<Ballot>, groups: seq<Group>) {
    forall g :: g in groups ==> g.providers == SortNames(Supporters(ballots, g.block))
  }

  lemma GroupsOfIs(ballots: seq<Ballot>, blocks: seq<Header>)
    requires forall i, j :: 0 <= i < j < |blocks| ==> blocks[i] != blocks[j]
    ensures var groups := GroupsOf(ballots, blocks);
            && Distinct(groups) && True(ballots, groups) && |groups| == |blocks|
            && forall i :: 0 <= i < |blocks| ==> groups[i].block == blocks[i]
  {
  }

  lemma SortGroupsIs(rank: Ranking, groups: seq<Group>)
    requires Distinct(groups)
    ensures var r := SortGroups(rank, groups);
            Distinct(r) && |r| == |groups| && forall h :: h in r <==> h in groups
  {
    SortByIs(GroupRank(rank), groups);
    SortByKeepsApart(GroupRank(rank), (g: Group) => g.block, groups);
  }

  /** The groups of a head: one for every reported block, with its supporters. */
  lemma GroupsAre(rank: Ranking, ballots: seq<Ballot>)
    ensures var groups := Groups(rank, ballots);
            && Distinct(groups) && True(ballots, groups)
            && forall b :: Supporters(ballots, b) != [] <==> Group(b, SortNames(Supporters(ballots, b))) in groups
  {
    hide GroupsOf, SortGroups, SortNames, Supporters, Distinct;
    var blocks := Reported(ballots);
    GroupsOfIs(ballots, blocks);
    SortGroupsIs(rank, GroupsOf(ballots, blocks));
    forall b
      ensures b in blocks <==> Group(b, SortNames(Supporters(ballots, b))) in GroupsOf(ballots, blocks)
    {
      GroupFor(ballots, blocks, GroupsOf(ballots, blocks), b);
    }
  }

  lemma GroupFor(ballots: seq<Ballot>, blocks: seq<Header>, groups: seq<Group>, b: Header)
    requires |groups| == |blocks| && True(ballots, groups)
    requires forall i :: 0 <= i < |blocks| ==> groups[i].block == blocks[i]
    ensures b in blocks <==> Group(b, SortNames(Supporters(ballots, b))) in groups
  {
    hide SortNames, Supporters;
    var g := Group(b, SortNames(Supporters(ballots, b)));
    if b in blocks {
      var i :| 0 <= i < |blocks| && blocks[i] == b;
      assert groups[i] in groups;
    }
    if g in groups {
      var i :| 0 <= i < |groups| && groups[i] == g;
      assert blocks[i] in blocks;
    }
  }

  lemma {:induction false} WinningAre(groups: seq<Group>, threshold: nat)
    requires Distinct(groups)
    ensures var w := Winning(groups, threshold);
            Distinct(w) && forall g :: g in w <==> g in groups && |g.providers| >= threshold
  {
    if groups != [] {
      assert groups == [groups[0]] + groups[1..];
      WinningAre(groups[1..], threshold);
      var rest := Winning(groups[1..], threshold);
      forall i | 0 <= i < |rest|
        ensures rest[i].block != groups[0].block
      {
        assert rest[i] in rest && rest[i] in groups[1..];
      }
    }
  }

  // ---------- One winner ----------

  /** Two groups that reach a strict majority are the same group. */
  lemma WinnersAreSame(ballots: seq<Ballot>, threshold: nat, g: Group, h: Group)
    requires |ballots| < threshold * 2 && |g.providers| >= threshold && |h.providers| >= threshold
    requires g.providers == SortNames(Supporters(ballots, g.block))
    requires h.providers == SortNames(Supporters(ballots, h.block))
    ensures g == h
  {
    SortNamesIs(Supporters(ballots, g.block));
    SortNamesIs(Supporters(ballots, h.block));
    if g.block != h.block {
      VotesAreShared(ballots, g.block, h.block);
    }
  }

  lemma AtMostOneWinner(rank: Ranking, ballots: seq<Ballot>, threshold: nat)
    requires 0 < threshold && |ballots| < threshold * 2
    ensures var w := Winning(Groups(rank, ballots), threshold);
            && |w| <= 1
            && forall b :: |Supporters(ballots, b)| >= threshold <==> Group(b, SortNames(Supporters(ballots, b))) in w
  {
    hide Supporters, SortNames, Groups, Winning;
    var groups := Groups(rank, ballots);
    GroupsAre(rank, ballots);
    WinningAre(groups, threshold);
    var w := Winning(groups, threshold);
    assert |w| > 0 ==> w[0] in w;
    assert |w| > 1 ==> w[1] in w;
    forall g, h | g in w && h in w
      ensures g == h
    {
      WinnersAreSame(ballots, threshold, g, h);
    }
    forall b
      ensures |Supporters(ballots, b)| >= threshold <==> Group(b, SortNames(Supporters(ballots, b))) in w
    {
      SortNamesIs(Supporters(ballots, b));
    }
  }

  /** Under a strict majority a head agrees on a block exactly when the threshold supports it, and lists them. */
  lemma AgreesExactly(rank: Ranking, ballots: seq<Ballot>, threshold: nat, b: Header)
    requires 0 < threshold && |ballots| < threshold * 2
    ensures var head := HeadOf(rank, ballots, threshold);
            && (head.status == Agree <==> head.agreed.Some?)
            && (head.agreed == Some(b) <==> |Supporters(ballots, b)| >= threshold)
            && (head.agreed == Some(b) ==> head.supporters == SortNames(Supporters(ballots, b)))
  {
    hide Supporters, SortNames, Groups, Winning;
    AtMostOneWinner(rank, ballots, threshold);
    GroupsAre(rank, ballots);
    WinningAre(Groups(rank, ballots), threshold);
    var w := Winning(Groups(rank, ballots), threshold);
    assert |w| == 1 ==> w[0] in w;
  }

  // ---------- Agreed heads are coherent ----------

  lemma AgreedHeadsShareProvider(rank: Ranking, newer: seq<Ballot>, older: seq<Ballot>, threshold: nat)
    requires 0 < threshold && |newer| == |older| < threshold * 2
    requires HeadOf(rank, newer, threshold).agreed.Some? && HeadOf(rank, older, threshold).agreed.Some?
    ensures exists i: nat :: Voted(newer, i, HeadOf(rank, newer, threshold).agreed.value)
                          && Voted(older, i, HeadOf(rank, older, threshold).agreed.value)
  {
    var a, b := HeadOf(rank, newer, threshold).agreed.value, HeadOf(rank, older, threshold).agreed.value;
    AgreesExactly(rank, newer, threshold, a);
    AgreesExactly(rank, older, threshold, b);
    MajoritiesMeet(newer, older, a, b);
  }

  /** Any two agreed heads were reported together by one healthy provider. */
  lemma AgreedPair(rank: Ranking, endpoints: seq<Endpoint>, threshold: nat, newer: Tag, older: Tag)
    requires 0 < threshold && |endpoints| < threshold * 2
    requires HeadOf(rank, BallotsFor(endpoints, newer), threshold).agreed.Some?
    requires HeadOf(rank, BallotsFor(endpoints, older), threshold).agreed.Some?
    ensures exists e :: e in endpoints && e.error == None
              && e.Head(newer) == HeadOf(rank, BallotsFor(endpoints, newer), threshold).agreed
              && e.Head(older) == HeadOf(rank, BallotsFor(endpoints, older), threshold).agreed
  {
    hide HeadOf, BallotsFor;
    var as_, bs := BallotsFor(endpoints, newer), BallotsFor(endpoints, older);
    AgreedHeadsShareProvider(rank, as_, bs, threshold);
    var i: nat :| Voted(as_, i, HeadOf(rank, as_, threshold).agreed.value)
               && Voted(bs, i, HeadOf(rank, bs, threshold).agreed.value);
    assert endpoints[i] in endpoints;
  }

  /** When all three heads agree, neighbouring heads can stand on one chain and the projector takes the triple. */
  lemma AgreedReportIsCoherent(rank: Ranking, endpoints: seq<Endpoint>, threshold: nat)
    requires 0 < threshold && |endpoints| < threshold * 2
    requires forall e :: e in endpoints ==> Healthy(e)
    requires ReportOf(rank, endpoints, threshold).status == Agree
    ensures var r := ReportOf(rank, endpoints, threshold);
            && r.latest.agreed.Some? && r.safe.agreed.Some? && r.finalized.agreed.Some?
            && CoherentPair(r.latest.agreed.value, r.safe.agreed.value)
            && CoherentPair(r.safe.agreed.value, r.finalized.agreed.value)
            && ValidateFinality(r.latest.agreed.value, r.safe.agreed, r.finalized.agreed) == None
  {
    hide HeadOf, BallotsFor;
    var r, any := ReportOf(rank, endpoints, threshold), Header(0, 0, 0);
    AgreesExactly(rank, BallotsFor(endpoints, Latest), threshold, any);
    AgreesExactly(rank, BallotsFor(endpoints, Safe), threshold, any);
    AgreesExactly(rank, BallotsFor(endpoints, Finalized), threshold, any);
    AgreedPair(rank, endpoints, threshold, Latest, Safe);
    var d :| d in endpoints && d.error == None && d.Head(Latest) == r.latest.agreed && d.Head(Safe) == r.safe.agreed;
    AgreedPair(rank, endpoints, threshold, Safe, Finalized);
    var e :| e in endpoints && e.error == None && e.Head(Safe) == r.safe.agreed
          && e.Head(Finalized) == r.finalized.agreed;
    assert Healthy(d) && Healthy(e);
  }

  // ---------- Who is listed where ----------

  predicate UniqueVoters(ballots: seq<Ballot>) {
    forall i, j :: 0 <= i < j < |ballots| ==> ballots[i].name != ballots[j].name
  }

  lemma {:induction false} SupportersHas(ballots: seq<Ballot>, b: Header)
    ensures forall n :: n in Supporters(ballots, b) <==>
              exists i :: 0 <= i < |ballots| && ballots[i] == Ballot(n, Some(b))
    ensures UniqueVoters(ballots) ==> Apart(Rank, Supporters(ballots, b))
  {
    if ballots != [] {
      SupportersHas(ballots[..|ballots| - 1], b);
    }
  }

  lemma {:induction false} AbsentHas(ballots: seq<Ballot>)
    ensures forall n :: n in Absent(ballots) <==> exists i :: 0 <= i < |ballots| && ballots[i] == Ballot(n, None)
    ensures UniqueVoters(ballots) ==> Apart(Rank, Absent(ballots))
  {
    if ballots != [] {
      AbsentHas(ballots[..|ballots| - 1]);
    }
  }

  lemma SortedStrictly(names: seq<Name>)
    requires Apart(Rank, names)
    ensures StrictlyAscends(Rank, SortNames(names))
  {
    SortByRises(Rank, names);
  }

  lemma {:induction false} WithoutHas(names: seq<Name>, dropped: seq<Name>)
    ensures forall n :: n in Without(names, dropped) <==> n in names && n !in dropped
    ensures Apart(Rank, names) ==> Apart(Rank, Without(names, dropped))
  {
    if names != [] {
      assert names == [names[0]] + names[1..];
      WithoutHas(names[1..], dropped);
    }
  }

  lemma ConcatApart(a: seq<Name>, b: seq<Name>)
    requires Apart(Rank, a) && Apart(Rank, b) && forall n :: n in a ==> n !in b
    ensures Apart(Rank, a + b)
  {
    assert forall i :: 0 <= i < |a| ==> a[i] in a;
    assert forall i :: 0 <= i < |b| ==> b[i] in b;
  }

  lemma {:induction false} AllProvidersHas(ballots: seq<Ballot>, groups: seq<Group>)
    requires UniqueVoters(ballots) && Distinct(groups) && True(ballots, groups)
    ensures forall n :: n in AllProviders(groups) <==> exists g :: g in groups && n in Supporters(ballots, g.block)
    ensures Apart(Rank, AllProviders(groups))
  {
    if groups != [] {
      assert groups == [groups[0]] + groups[1..];
      AllProvidersHas(ballots, groups[1..]);
      var b := groups[0].block;
      SupportersHas(ballots, b);
      SortedStrictly(Supporters(ballots, b));
      forall n
        ensures n in groups[0].providers <==> n in Supporters(ballots, b)
      {
        SortNamesHas(Supporters(ballots, b), n);
      }
      forall n, g | n in Supporters(ballots, b) && g in groups[1..]
        ensures n !in Supporters(ballots, g.block)
      {
        SupportersHas(ballots, g.block);
      }
      ConcatApart(groups[0].providers, AllProviders(groups[1..]));
    }
  }

  /** Every provider is listed once: as a supporter of the agreed block, as a dissenter, or as unavailable. */
  lemma HeadPartitions(rank: Ranking, ballots: seq<Ballot>, threshold: nat, i: nat)
    requires 0 < threshold && |ballots| < threshold * 2 && UniqueVoters(ballots) && i < |ballots|
    ensures var head, n, vote := HeadOf(rank, ballots, threshold), ballots[i].name, ballots[i].block;
            && (n in head.unavailable <==> vote == None)
            && (n in head.supporters <==> vote.Some? && vote == head.agreed)
            && (n in head.dissenters <==> vote.Some? && vote != head.agreed)
    ensures var head := HeadOf(rank, ballots, threshold);
            && StrictlyAscends(Rank, head.unavailable) && StrictlyAscends(Rank, head.supporters)
            && StrictlyAscends(Rank, head.dissenters)
  {
    hide SortNames, Supporters, Absent, AllProviders, Without, Winning, Groups;
    var groups, head := Groups(rank, ballots), HeadOf(rank, ballots, threshold);
    var n, vote := ballots[i].name, ballots[i].block;
    GroupsAre(rank, ballots);
    AbsentHas(ballots);
    SortedStrictly(Absent(ballots));
    SortNamesHas(Absent(ballots), n);
    AllProvidersHas(ballots, groups);
    ProvidersAreVoters(ballots, groups, i) by {
      if vote.Some? { SupportersHas(ballots, vote.value); }
    }
    var block := if head.agreed.Some? then head.agreed.value else Header(0, 0, 0);
    AgreesExactly(rank, ballots, threshold, block);
    SupportersHas(ballots, block);
    SortedStrictly(Supporters(ballots, block));
    SortNamesHas(Supporters(ballots, block), n);
    var dropped := head.supporters;
    WithoutHas(AllProviders(groups), dropped);
    SortedStrictly(AllProviders(groups));
    SortedStrictly(Without(AllProviders(groups), dropped));
    SortNamesHas(AllProviders(groups), n);
    SortNamesHas(Without(AllProviders(groups), dropped), n);
  }

  lemma ProvidersAreVoters(ballots: seq<Ballot>, groups: seq<Group>, i: nat)
    requires UniqueVoters(ballots) && Distinct(groups) && True(ballots, groups) && i < |ballots|
    requires forall b :: Supporters(ballots, b) != [] <==> Group(b, SortNames(Supporters(ballots, b))) in groups
    ensures ballots[i].name in AllProviders(groups) <==> ballots[i].block.Some?
  {
    AllProvidersHas(ballots, groups);
    var n := ballots[i].name;
    if ballots[i].block.Some? {
      var b := ballots[i].block.value;
      SupportersHas(ballots, b);
      assert ballots[i] == Ballot(n, Some(b));
      assert Group(b, SortNames(Supporters(ballots, b))) in groups;
    }
    if n in AllProviders(groups) {
      var g :| g in groups && n in Supporters(ballots, g.block);
      SupportersHas(ballots, g.block);
    }
  }

  // ---------- What a status says ----------

  /** Some provider voted for the block. */
  predicate Heard(ballots: seq<Ballot>, b: Header) {
    Supporters(ballots, b) != []
  }

  lemma GroupsCount(rank: Ranking, ballots: seq<Ballot>)
    ensures |Groups(rank, ballots)| > 1 <==> exists a, b :: a != b && Heard(ballots, a) && Heard(ballots, b)
    ensures Ascends(GroupRank(rank), Groups(rank, ballots))
  {
    hide Supporters, SortNames;
    var blocks := Reported(ballots);
    GroupsOfIs(ballots, blocks);
    SortByIs(GroupRank(rank), GroupsOf(ballots, blocks));
    if |blocks| > 1 {
      assert blocks[0] in blocks && blocks[1] in blocks;
      assert Heard(ballots, blocks[0]) && Heard(ballots, blocks[1]);
    }
    forall a, b | a != b && Heard(ballots, a) && Heard(ballots, b)
      ensures |blocks| > 1
    {
      assert a in blocks && b in blocks;
    }
  }

  /** Under a strict majority a head agrees when a threshold voted for one block; otherwise it is conflicted when two
      blocks were voted for, and unavailable when no more than one was. Its groups are listed by rank. */
  lemma StatusMeans(rank: Ranking, ballots: seq<Ballot>, threshold: nat)
    requires 0 < threshold && |ballots| < threshold * 2
    ensures var head := HeadOf(rank, ballots, threshold);
            && (head.status == Agree <==> exists b :: |Supporters(ballots, b)| >= threshold)
            && (head.status == Conflicted <==>
                  && (forall b :: |Supporters(ballots, b)| < threshold)
                  && exists a, b :: a != b && Heard(ballots, a) && Heard(ballots, b))
            && Ascends(GroupRank(rank), head.groups)
  {
    hide Supporters, SortNames, Groups, Winning, Heard, Ascends;
    AtMostOneWinner(rank, ballots, threshold);
    GroupsAre(rank, ballots);
    GroupsCount(rank, ballots);
    WinningAre(Groups(rank, ballots), threshold);
    var w := Winning(Groups(rank, ballots), threshold);
    if |w| == 1 {
      assert w[0] in w;
      assert |Supporters(ballots, w[0].block)| >= threshold by { SortNamesIs(Supporters(ballots, w[0].block)); }
    }
  }

  /** A report agrees when all three heads do, and is conflicted when one of them is. */
  lemma ReportStatusMeans(rank: Ranking, endpoints: seq<Endpoint>, threshold: nat)
    ensures var r := ReportOf(rank, endpoints, threshold);
            && (r.status == Agree <==> forall tag: Tag :: r.Head(tag).status == Agree)
            && (r.status == Conflicted <==> exists tag: Tag :: r.Head(tag).status == Conflicted)
  {
    hide HeadOf, BallotsFor;
    var r := ReportOf(rank, endpoints, threshold);
    assert r.Head(Latest) == r.latest && r.Head(Safe) == r.safe && r.Head(Finalized) == r.finalized;
  }
}
