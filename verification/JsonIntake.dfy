/** The second look a parsed value gets before use, and what it leaves for the canonicalizer to refuse. */
module JsonIntake {
  import opened Wrappers
  import opened JsonText
  import opened CanonicalJson
  import opened CanonicalMeaning

  // ---------- The check ----------

  /** The first number or overlong nesting, in the order of the document. */
  function Rejected(v: Json, depth: nat): Option<JsonError>
    decreases v, 0
  {
    if depth > MAX_JSON_DEPTH then Some(DepthExceeded)
    else match v
      case Number => Some(NumberForbidden)
      case Array(items) => RejectedItems(items, depth + 1)
      case Object(entries) => RejectedEntries(entries, depth + 1)
      case _ => None
  }

  function RejectedItems(items: seq<Json>, depth: nat): Option<JsonError>
    decreases items, 1, |items|
  {
    if items == [] then None
    else if Rejected(items[0], depth).Some? then Rejected(items[0], depth)
    else RejectedItems(items[1..], depth)
  }

  function RejectedEntries(entries: seq<Entry>, depth: nat): Option<JsonError>
    decreases entries, 1, |entries|
  {
    if entries == [] then None
    else if Rejected(entries[0].value, depth).Some? then Rejected(entries[0].value, depth)
    else RejectedEntries(entries[1..], depth)
  }

  /** The check as it runs, returning at the first fault. */
  method RejectNumbers(v: Json, depth: nat) returns (r: Option<JsonError>)
    ensures r == Rejected(v, depth)
    decreases v
  {
    if depth > MAX_JSON_DEPTH { return Some(DepthExceeded); }
    match v
    case Number => return Some(NumberForbidden);
    case Array(items) =>
      for i := 0 to |items|
        invariant RejectedItems(items, depth + 1) == RejectedItems(items[i..], depth + 1)
      {
        var fault := RejectNumbers(items[i], depth + 1);
        if fault.Some? { return fault; }
        assert items[i..][1..] == items[i + 1..];
      }
      return None;
    case Object(entries) =>
      for i := 0 to |entries|
        invariant RejectedEntries(entries, depth + 1) == RejectedEntries(entries[i..], depth + 1)
      {
        var fault := RejectNumbers(entries[i].value, depth + 1);
        if fault.Some? { return fault; }
        assert entries[i..][1..] == entries[i + 1..];
      }
      return None;
    case _ => return None;
  }

  // ---------- What is left to refuse ----------

  /** No number anywhere, and no value nested deeper than the limit. */
  predicate Shallow(v: Json, depth: nat) {
    && depth <= MAX_JSON_DEPTH && v != Number
    && (v.Array? ==> forall i :: 0 <= i < |v.items| ==> Shallow(v.items[i], depth + 1))
    && (v.Object? ==> forall i :: 0 <= i < |v.entries| ==> Shallow(v.entries[i].value, depth + 1))
  }

  /** No string or key longer than the longest text that is parsed at all. */
  predicate ShortStrings(v: Json) {
    match v
    case Text(t) => |t| <= MAX_JSON_LENGTH
    case Array(items) => forall i :: 0 <= i < |items| ==> ShortStrings(items[i])
    case Object(entries) =>
      forall i :: 0 <= i < |entries| ==> |entries[i].key| <= MAX_JSON_LENGTH && ShortStrings(entries[i].value)
    case _ => true
  }

  /** In every object the normalized keys differ and still fit. */
  predicate KeysSettle(nfc: Nfc, v: Json) {
    match v
    case Array(items) => forall i :: 0 <= i < |items| ==> KeysSettle(nfc, items[i])
    case Object(entries) =>
      && KeysDistinct(nfc, entries)
      && forall i :: 0 <= i < |entries| ==>
           |nfc(entries[i].key)| <= MAX_JSON_LENGTH && KeysSettle(nfc, entries[i].value)
    case _ => true
  }

  lemma {:induction false} RejectsExactly(v: Json, depth: nat)
    ensures Rejected(v, depth) == None <==> Shallow(v, depth)
    decreases v, 0
  {
    hide RejectedItems, RejectedEntries;
    match v
    case Array(items) => ItemsRejected(items, depth + 1);
    case Object(entries) => EntriesRejected(entries, depth + 1);
    case _ =>
  }

  lemma {:induction false} ItemsRejected(items: seq<Json>, depth: nat)
    ensures RejectedItems(items, depth) == None <==> forall i :: 0 <= i < |items| ==> Shallow(items[i], depth)
    decreases items, 1, |items|
  {
    hide Rejected, Shallow;
    if items != [] {
      RejectsExactly(items[0], depth);
      ItemsRejected(items[1..], depth);
      assert forall i :: 1 <= i < |items| ==> items[i] == items[1..][i - 1];
    }
  }

  lemma {:induction false} EntriesRejected(entries: seq<Entry>, depth: nat)
    ensures RejectedEntries(entries, depth) == None
            <==> forall i :: 0 <= i < |entries| ==> Shallow(entries[i].value, depth)
    decreases entries, 1, |entries|
  {
    hide Rejected, Shallow;
    if entries != [] {
      RejectsExactly(entries[0].value, depth);
      EntriesRejected(entries[1..], depth);
      assert forall i :: 1 <= i < |entries| ==> entries[i] == entries[1..][i - 1];
    }
  }

  lemma {:induction false} AcceptableSplits(nfc: Nfc, v: Json, depth: nat)
    ensures Acceptable(nfc, v, depth) <==> Shallow(v, depth) && ShortStrings(v) && KeysSettle(nfc, v)
    decreases v
  {
    match v
    case Array(items) =>
      forall i | 0 <= i < |items|
        ensures Acceptable(nfc, items[i], depth + 1)
                <==> Shallow(items[i], depth + 1) && ShortStrings(items[i]) && KeysSettle(nfc, items[i])
      {
        AcceptableSplits(nfc, items[i], depth + 1);
      }
    case Object(entries) =>
      forall i | 0 <= i < |entries|
        ensures Acceptable(nfc, entries[i].value, depth + 1)
                <==> && Shallow(entries[i].value, depth + 1) && ShortStrings(entries[i].value)
                     && KeysSettle(nfc, entries[i].value)
      {
        AcceptableSplits(nfc, entries[i].value, depth + 1);
      }
    case _ =>
  }

  /** A parsed value that passed the check is canonicalized exactly when normalization settles its keys, and what is
      refused is refused for its keys: neither depth nor numbers come up again. */
  lemma ParsedFailsOnlyOnKeys(nfc: Nfc, v: Json)
    requires ShortStrings(v) && Rejected(v, 0) == None
    ensures Canonical(nfc, v, 0).Ok? <==> KeysSettle(nfc, v)
    ensures Canonical(nfc, v, 0).Err? ==> Canonical(nfc, v, 0).error in {NfcCollision, InvalidValue}
  {
    hide Canonical, Acceptable, Shallow, KeysSettle, ShortStrings, Rejected;
    RejectsExactly(v, 0);
    AcceptsExactly(nfc, v, 0);
    AcceptableSplits(nfc, v, 0);
    FaultsAreKeys(nfc, v, 0);
  }

  predicate KeyFault<T>(r: Result<T, JsonError>) {
    r.Err? ==> r.error in {NfcCollision, InvalidValue}
  }

  lemma {:induction false} FaultsAreKeys(nfc: Nfc, v: Json, depth: nat)
    requires Shallow(v, depth)
    ensures KeyFault(Canonical(nfc, v, depth))
    decreases v, 1, 0
  {
    hide CanonicalItems, CanonicalMembers, Keys, SortKnown, KeysError;
    match v
    case Array(items) => ItemFaults(nfc, items, depth + 1);
    case Object(entries) =>
      KeysAreMembers(nfc, v);
      KeyFaults(nfc, entries);
      MemberFaults(nfc, v, SortKnown(Keys(nfc, entries)), depth + 1);
    case _ =>
  }

  lemma {:induction false} KeyFaults(nfc: Nfc, entries: seq<Entry>)
    ensures KeysError(nfc, entries).Some? ==> KeysError(nfc, entries).value in {NfcCollision, InvalidValue}
  {
    hide Keys, HasKey;
    if entries != [] {
      KeyFaults(nfc, entries[..|entries| - 1]);
    }
  }

  lemma {:induction false} ItemFaults(nfc: Nfc, items: seq<Json>, depth: nat)
    requires forall i :: 0 <= i < |items| ==> Shallow(items[i], depth)
    ensures KeyFault(CanonicalItems(nfc, items, depth))
    decreases items, 0, |items|
  {
    hide Canonical, Shallow;
    if items != [] {
      FaultsAreKeys(nfc, items[0], depth);
      ItemFaults(nfc, items[1..], depth);
    }
  }

  lemma {:induction false} MemberFaults(nfc: Nfc, v: Json, members: seq<Known>, depth: nat)
    requires MembersOf(v, members) && forall i :: 0 <= i < |v.entries| ==> Shallow(v.entries[i].value, depth)
    ensures KeyFault(CanonicalMembers(nfc, v, members, depth))
    decreases v, 0, |members|
  {
    hide Canonical, Shallow;
    if members != [] {
      assert members[0] in members;
      FaultsAreKeys(nfc, v.entries[members[0].index].value, depth);
      MemberFaults(nfc, v, members[1..], depth);
    }
  }

  lemma {:induction false} NestedShallow(n: nat, depth: nat)
    requires n + depth <= 2_000
    ensures Shallow(Nested(n), depth) <==> depth + n <= 64
  {
    if n > 0 {
      NestedShallow(n - 1, depth + 1);
      assert [Nested(n - 1)][0] == Nested(n - 1);
    }
  }

  /** The limit on nesting is reached and not passed. */
  lemma LimitIsReached(n: nat)
    requires n <= 1_000
    ensures Rejected(Nested(n), 0) == None <==> n <= 64
    ensures Rejected(Number, 0) == Some(NumberForbidden)
  {
    NestedShallow(n, 0);
    RejectsExactly(Nested(n), 0);
  }
}
