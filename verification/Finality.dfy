/** Block headers under the three finality tags, and when they can stand on one chain. */
module Finality {
  import opened Wrappers
  import opened ProtocolTypes

  datatype Header = Header(number: int, hash: Bytes32, parentHash: Bytes32)

  datatype Tag = Latest | Safe | Finalized

  predicate InRange(h: Header) {
    0 <= h.number <= MAX_UINT64
  }

  /** Whether a newer block may descend from an older one, as far as two headers can tell. */
  predicate CoherentPair(newer: Header, older: Header) {
    if newer.number < older.number then false
    else if newer.number == older.number then newer == older
    else if newer.number == older.number + 1 then newer.parentHash == older.hash
    else true
  }

  datatype FinalityFault = MalformedHead(tag: Tag) | FinalizedWithoutSafe | SafeInconsistent | FinalizedInconsistent

  /** The projector's check of an observed head beside its safe and finalized heads. */
  function ValidateFinality(head: Header, safe: Option<Header>, finalized: Option<Header>): Option<FinalityFault> {
    if !InRange(head) then Some(MalformedHead(Latest))
    else if safe.Some? && !InRange(safe.value) then Some(MalformedHead(Safe))
    else if finalized.Some? && !InRange(finalized.value) then Some(MalformedHead(Finalized))
    else if finalized.Some? && safe == None then Some(FinalizedWithoutSafe)
    else if safe.Some? && !CoherentPair(head, safe.value) then Some(SafeInconsistent)
    else if safe.Some? && finalized.Some? && !CoherentPair(safe.value, finalized.value) then Some(FinalizedInconsistent)
    else None
  }

  /** Headers from one to another, each the parent of the next. */
  predicate Leads(run: seq<Header>, older: Header, newer: Header) {
    && |run| > 0 && run[0] == older && run[|run| - 1] == newer
    && forall i :: 0 < i < |run| ==> run[i].number == run[i - 1].number + 1 && run[i].parentHash == run[i - 1].hash
  }

  /** A run that leads from one header to another, as far as these two determine it. */
  function Bridge(older: Header, newer: Header): (run: seq<Header>)
    requires older.number <= newer.number
    ensures |run| == newer.number - older.number + 1
  {
    seq(newer.number - older.number + 1,
        i requires 0 <= i <= newer.number - older.number =>
          if i == 0 then older
          else if i == newer.number - older.number then newer
          else Header(older.number + i, newer.parentHash, if i == 1 then older.hash else newer.parentHash))
  }

  lemma {:induction false} RunsCount(run: seq<Header>, older: Header, newer: Header)
    requires Leads(run, older, newer)
    ensures newer.number == older.number + |run| - 1
  {
    if |run| > 1 {
      var n := |run| - 1;
      RunsCount(run[..n], older, run[n - 1]);
    }
  }

  /** Two headers are coherent exactly when some parent-linked run leads from the older to the newer. */
  lemma CoherentExactly(newer: Header, older: Header)
    ensures CoherentPair(newer, older) <==> exists run :: Leads(run, older, newer)
  {
    if CoherentPair(newer, older) {
      var run := Bridge(older, newer);
      assert Leads(run, older, newer);
    }
    forall run | Leads(run, older, newer)
      ensures CoherentPair(newer, older)
    {
      RunsCount(run, older, newer);
    }
  }
}
