/** The resource walk over evidence: a loop with its own stack accepts exactly what a recursive measure would. */
module EvidenceWalk {
  import opened Wrappers
  import opened JsonText
  import opened Utf8

  const MAX_NODES: nat := 2_000_000
  const MAX_DEPTH: nat := 64
  const MAX_STRING_BYTES: nat := 16_384
  const MAX_BYTES: nat := 67_108_864

  // ---------- The recursive measure ----------

  function Nodes(x: Json): (n: nat)
    ensures n >= 1
    decreases x, 0
  {
    match x
    case Array(items) => 1 + ItemNodes(items)
    case Object(entries) => 1 + EntryNodes(entries)
    case _ => 1
  }

  function ItemNodes(items: seq<Json>): nat
    decreases items, |items| + 1
  {
    if items == [] then 0 else Nodes(items[0]) + ItemNodes(items[1..])
  }

  function EntryNodes(entries: seq<Entry>): nat
    decreases entries, |entries| + 1
  {
    if entries == [] then 0 else Nodes(entries[0].value) + EntryNodes(entries[1..])
  }

  /** The bytes of all string values and all keys. */
  function Bytes(x: Json): nat
    decreases x, 0
  {
    match x
    case Text(t) => ByteLength(t)
    case Array(items) => ItemBytes(items)
    case Object(entries) => EntryBytes(entries)
    case _ => 0
  }

  function ItemBytes(items: seq<Json>): nat
    decreases items, |items| + 1
  {
    if items == [] then 0 else Bytes(items[0]) + ItemBytes(items[1..])
  }

  function EntryBytes(entries: seq<Entry>): nat
    decreases entries, |entries| + 1
  {
    if entries == [] then 0
    else ByteLength(entries[0].key) + Bytes(entries[0].value) + EntryBytes(entries[1..])
  }

  /** No node of x, itself at the given depth, is too deep, a too long string, or a number. */
  predicate PartsFit(x: Json, depth: nat) {
    && depth <= MAX_DEPTH
    && match x
       case Number => false
       case Text(t) => ByteLength(t) <= MAX_STRING_BYTES
       case Array(items) => forall i :: 0 <= i < |items| ==> PartsFit(items[i], depth + 1)
       case Object(entries) => forall i :: 0 <= i < |entries| ==> PartsFit(entries[i].value, depth + 1)
       case _ => true
  }

  predicate Bounded(x: Json) {
    Nodes(x) <= MAX_NODES && Bytes(x) <= MAX_BYTES && PartsFit(x, 0)
  }

  // ---------- The stack ----------

  datatype Pending = Pending(value: Json, depth: nat)

  function StackNodes(stack: seq<Pending>): nat {
    if stack == [] then 0 else StackNodes(stack[..|stack| - 1]) + Nodes(stack[|stack| - 1].value)
  }

  function StackBytes(stack: seq<Pending>): nat {
    if stack == [] then 0 else StackBytes(stack[..|stack| - 1]) + Bytes(stack[|stack| - 1].value)
  }

  predicate StackFits(stack: seq<Pending>) {
    forall i :: 0 <= i < |stack| ==> PartsFit(stack[i].value, stack[i].depth)
  }

  function Items(items: seq<Json>, depth: nat): (r: seq<Pending>)
    ensures |r| == |items| && forall i :: 0 <= i < |items| ==> r[i] == Pending(items[i], depth)
  {
    if items == [] then [] else [Pending(items[0], depth)] + Items(items[1..], depth)
  }

  function Values(entries: seq<Entry>): (r: seq<Json>)
    ensures |r| == |entries| && forall i :: 0 <= i < |entries| ==> r[i] == entries[i].value
  {
    if entries == [] then [] else [entries[0].value] + Values(entries[1..])
  }

  function KeyBytes(entries: seq<Entry>): nat {
    if entries == [] then 0 else ByteLength(entries[0].key) + KeyBytes(entries[1..])
  }

  lemma {:induction false} StackJoins(a: seq<Pending>, b: seq<Pending>)
    ensures StackNodes(a + b) == StackNodes(a) + StackNodes(b)
    ensures StackBytes(a + b) == StackBytes(a) + StackBytes(b)
  {
    if b == [] {
      assert a + b == a;
    } else {
      StackJoins(a, b[..|b| - 1]);
      assert (a + b)[..|a + b| - 1] == a + b[..|b| - 1];
    }
  }

  lemma {:induction false} ItemsMeasure(items: seq<Json>, depth: nat)
    ensures StackNodes(Items(items, depth)) == ItemNodes(items)
    ensures StackBytes(Items(items, depth)) == ItemBytes(items)
  {
    if items != [] {
      ItemsMeasure(items[1..], depth);
      StackJoins([Pending(items[0], depth)], Items(items[1..], depth));
      assert [Pending(items[0], depth)][..0] == [];
    }
  }

  lemma {:induction false} ValuesMeasure(entries: seq<Entry>)
    ensures ItemNodes(Values(entries)) == EntryNodes(entries)
    ensures KeyBytes(entries) + ItemBytes(Values(entries)) == EntryBytes(entries)
  {
    if entries != [] {
      ValuesMeasure(entries[1..]);
      assert Values(entries)[1..] == Values(entries[1..]);
    }
  }

  /** What a popped value leaves to be walked. */
  function Children(current: Pending): seq<Pending> {
    match current.value
    case Array(items) => Items(items, current.depth + 1)
    case Object(entries) => Items(Values(entries), current.depth + 1)
    case _ => []
  }

  /** The bytes counted when a value is popped. */
  function OwnBytes(x: Json): nat {
    match x
    case Text(t) => ByteLength(t)
    case Object(entries) => KeyBytes(entries)
    case _ => 0
  }

  /** Nothing popped value can be rejected for by itself. */
  predicate FitsItself(current: Pending) {
    && current.depth <= MAX_DEPTH && !current.value.Number?
    && (current.value.Text? ==> ByteLength(current.value.text) <= MAX_STRING_BYTES)
  }

  lemma ChildrenMeasure(current: Pending)
    ensures Nodes(current.value) == 1 + StackNodes(Children(current))
    ensures Bytes(current.value) == OwnBytes(current.value) + StackBytes(Children(current))
  {
    hide StackNodes, StackBytes, ItemNodes, ItemBytes, EntryNodes, EntryBytes, Items, Values, KeyBytes, ByteLength;
    NothingStacked();
    match current.value
    case Array(items) => ItemsMeasure(items, current.depth + 1);
    case Object(entries) =>
      ItemsMeasure(Values(entries), current.depth + 1);
      ValuesMeasure(entries);
    case _ =>
  }

  lemma NothingStacked()
    ensures StackNodes([]) == 0 && StackBytes([]) == 0 && StackFits([])
  {
  }

  lemma OneStacked(p: Pending)
    ensures StackNodes([p]) == Nodes(p.value) && StackBytes([p]) == Bytes(p.value)
    ensures StackFits([p]) <==> PartsFit(p.value, p.depth)
  {
    hide Nodes, Bytes, PartsFit;
    assert [p][..0] == [] && [p][0] == p;
  }

  /** Popping a value and pushing its children keeps the measure. */
  lemma PopMeasure(stack: seq<Pending>)
    requires stack != []
    ensures var rest, current := stack[..|stack| - 1], stack[|stack| - 1];
            && StackNodes(stack) == 1 + StackNodes(rest + Children(current))
            && StackBytes(stack) == OwnBytes(current.value) + StackBytes(rest + Children(current))
            && (StackFits(stack) <==> FitsItself(current) && StackFits(rest + Children(current)))
  {
    hide StackNodes, StackBytes, StackFits, Nodes, Bytes, PartsFit, Children, OwnBytes, FitsItself;
    var rest, current := stack[..|stack| - 1], stack[|stack| - 1];
    StackJoins(rest, Children(current));
    StackJoins(rest, [current]);
    OneStacked(current);
    ChildrenMeasure(current);
    PopFits(rest, current);
    assert stack == rest + [current];
  }

  lemma PopFits(rest: seq<Pending>, current: Pending)
    ensures StackFits(rest + [current]) <==> FitsItself(current) && StackFits(rest + Children(current))
  {
    hide StackFits, PartsFit, Children, FitsItself;
    FitsSplit(current);
    FitsJoins(rest, [current]);
    FitsJoins(rest, Children(current));
    OneStacked(current);
  }

  lemma FitsJoins(a: seq<Pending>, b: seq<Pending>)
    ensures StackFits(a + b) <==> StackFits(a) && StackFits(b)
  {
    hide PartsFit;
    if StackFits(a + b) {
      assert forall i :: 0 <= i < |a| ==> (a + b)[i] == a[i];
      assert forall i :: 0 <= i < |b| ==> (a + b)[|a| + i] == b[i];
    }
  }

  lemma FitsSplit(current: Pending)
    ensures PartsFit(current.value, current.depth) <==> FitsItself(current) && StackFits(Children(current))
  {
    var children := Children(current);
    match current.value
    case Array(items) =>
      assert forall i :: 0 <= i < |items| ==> children[i] == Pending(items[i], current.depth + 1);
    case Object(entries) =>
      assert forall i :: 0 <= i < |entries| ==> children[i] == Pending(entries[i].value, current.depth + 1);
    case _ =>
  }

  // ---------- The walks ----------

  datatype Rejection = ResourceLimit | NonCanonicalValue

  /** No node is too deep and no string too long; numbers are let through. */
  predicate SizesFit(x: Json, depth: nat) {
    && depth <= MAX_DEPTH
    && match x
       case Text(t) => ByteLength(t) <= MAX_STRING_BYTES
       case Array(items) => forall i :: 0 <= i < |items| ==> SizesFit(items[i], depth + 1)
       case Object(entries) => forall i :: 0 <= i < |entries| ==> SizesFit(entries[i].value, depth + 1)
       case _ => true
  }

  predicate WithinResources(x: Json) {
    Nodes(x) <= MAX_NODES && Bytes(x) <= MAX_BYTES && SizesFit(x, 0)
  }

  predicate StackSizesFit(stack: seq<Pending>) {
    forall i :: 0 <= i < |stack| ==> SizesFit(stack[i].value, stack[i].depth)
  }

  predicate StackNumberFree(stack: seq<Pending>) {
    forall i :: 0 <= i < |stack| ==> NumberFree(stack[i].value)
  }

  /** What holds of the whole holds of what is left on the stack. */
  lemma ChildrenInherit(rest: seq<Pending>, current: Pending)
    ensures StackSizesFit(rest + [current]) ==>
              StackSizesFit(rest + Children(current)) && current.depth <= MAX_DEPTH
              && (current.value.Text? ==> ByteLength(current.value.text) <= MAX_STRING_BYTES)
    ensures StackNumberFree(rest + [current]) ==>
              StackNumberFree(rest + Children(current)) && !current.value.Number?
  {
    var stack, next := rest + [current], rest + Children(current);
    assert stack[|rest|] == current;
    assert forall i :: 0 <= i < |rest| ==> stack[i] == rest[i];
  }

  /** The walk of the receipt builder: children are pushed one by one. None is acceptance; a rejection names a fault that
      is there. */
  method BoundedEvidence(x: Json) returns (rejection: Option<Rejection>)
    ensures rejection == None <==> Bounded(x)
    ensures rejection == Some(NonCanonicalValue) ==> !NumberFree(x)
    ensures rejection == Some(ResourceLimit) ==> !WithinResources(x)
  {
    hide StackNodes, StackBytes, StackFits, Nodes, Bytes, PartsFit, ByteLength, Items, Values, Children;
    hide SizesFit, StackSizesFit, NumberFree, StackNumberFree;
    OneInherits(x);
    var stack := [Pending(x, 0)];
    var nodes, bytes := 0, 0;
    OneStacked(stack[0]);
    NothingStacked();
    while stack != []
      invariant nodes + StackNodes(stack) == Nodes(x) && nodes <= MAX_NODES
      invariant bytes + StackBytes(stack) == Bytes(x) && bytes <= MAX_BYTES
      invariant PartsFit(x, 0) <==> StackFits(stack)
      invariant SizesFit(x, 0) ==> StackSizesFit(stack)
      invariant NumberFree(x) ==> StackNumberFree(stack)
      decreases StackNodes(stack)
    {
      PopMeasure(stack);
      var current := stack[|stack| - 1];
      assert stack == stack[..|stack| - 1] + [current];
      stack := stack[..|stack| - 1];
      ghost var rest := stack;
      ChildrenInherit(rest, current);
      ChildrenOf(current);
      nodes := nodes + 1;
      if nodes > MAX_NODES { return Some(ResourceLimit); }
      if current.depth > MAX_DEPTH { return Some(ResourceLimit); }
      var depth := current.depth + 1;
      match current.value {
        case Null =>
        case Bool(_) =>
        case Number => return Some(NonCanonicalValue);
        case Text(t) =>
          var stringBytes := ByteLength(t);
          if stringBytes > MAX_STRING_BYTES { return Some(ResourceLimit); }
          bytes := bytes + stringBytes;
        case Array(items) => stack := PushAll(stack, items, depth);
        case Object(entries) =>
          var keyBytes;
          stack, keyBytes := PushMembers(stack, entries, depth);
          bytes := bytes + keyBytes;
      }
      assert stack == rest + Children(current);
      if bytes > MAX_BYTES { return Some(ResourceLimit); }
    }
    return None;
  }

  lemma OneInherits(x: Json)
    ensures SizesFit(x, 0) ==> StackSizesFit([Pending(x, 0)])
    ensures NumberFree(x) ==> StackNumberFree([Pending(x, 0)])
  {
  }

  lemma ChildrenOf(current: Pending)
    ensures Children(current)
         == match current.value
            case Array(items) => Items(items, current.depth + 1)
            case Object(entries) => Items(Values(entries), current.depth + 1)
            case _ => []
  {
  }

  method PushAll(stack: seq<Pending>, items: seq<Json>, depth: nat) returns (r: seq<Pending>)
    ensures r == stack + Items(items, depth)
  {
    hide Items;
    r := stack;
    for i := 0 to |items|
      invariant r == stack + Items(items, depth)[..i]
    {
      r := r + [Pending(items[i], depth)];
    }
  }

  method PushMembers(stack: seq<Pending>, entries: seq<Entry>, depth: nat) returns (r: seq<Pending>, bytes: nat)
    ensures r == stack + Items(Values(entries), depth) && bytes == KeyBytes(entries)
  {
    hide Items, Values, ByteLength;
    r, bytes := stack, 0;
    assert entries[0..] == entries;
    for i := 0 to |entries|
      invariant r == stack + Items(Values(entries), depth)[..i]
      invariant bytes + KeyBytes(entries[i..]) == KeyBytes(entries)
    {
      assert entries[i..][0] == entries[i] && entries[i..][1..] == entries[i + 1..];
      bytes := bytes + ByteLength(entries[i].key);
      r := r + [Pending(entries[i].value, depth)];
    }
  }

  /** The Python verifier's walk: children are appended together. True is acceptance. */
  method BoundedEvidencePy(x: Json) returns (accepted: bool)
    ensures accepted <==> Bounded(x)
  {
    hide StackNodes, StackBytes, StackFits, Nodes, Bytes, PartsFit, ByteLength, Items, Values;
    var stack := [Pending(x, 0)];
    var nodes, byteCount := 0, 0;
    OneStacked(stack[0]);
    NothingStacked();
    while stack != []
      invariant nodes + StackNodes(stack) == Nodes(x) && nodes <= MAX_NODES
      invariant byteCount + StackBytes(stack) == Bytes(x) && byteCount <= MAX_BYTES
      invariant PartsFit(x, 0) <==> StackFits(stack)
      decreases StackNodes(stack)
    {
      PopMeasure(stack);
      var current := stack[|stack| - 1];
      nodes := nodes + 1;
      if nodes > MAX_NODES || current.depth > MAX_DEPTH || current.value.Number? { return false; }
      if current.value.Text? && ByteLength(current.value.text) > MAX_STRING_BYTES { return false; }
      stack := stack[..|stack| - 1] + Children(current);
      byteCount := byteCount + OwnBytes(current.value);
      if byteCount > MAX_BYTES { return false; }
    }
    return true;
  }

  // ---------- What the limits mean ----------

  /** Everything inside accepted evidence is accepted evidence. */
  lemma {:induction false} PartsAreBounded(x: Json, i: nat)
    requires Bounded(x)
    requires (x.Array? && i < |x.items|) || (x.Object? && i < |x.entries|)
    ensures Bounded(if x.Array? then x.items[i] else x.entries[i].value)
  {
    if x.Array? {
      ItemWithin(x.items, i);
      ShallowerFits(x.items[i], 1, 0);
    } else {
      EntryWithin(x.entries, i);
      ShallowerFits(x.entries[i].value, 1, 0);
    }
  }

  lemma {:induction false} ItemWithin(items: seq<Json>, i: nat)
    requires i < |items|
    ensures Nodes(items[i]) <= ItemNodes(items) && Bytes(items[i]) <= ItemBytes(items)
  {
    if i > 0 {
      ItemWithin(items[1..], i - 1);
    }
  }

  lemma {:induction false} EntryWithin(entries: seq<Entry>, i: nat)
    requires i < |entries|
    ensures Nodes(entries[i].value) <= EntryNodes(entries) && Bytes(entries[i].value) <= EntryBytes(entries)
  {
    if i > 0 {
      EntryWithin(entries[1..], i - 1);
    }
  }

  lemma {:induction false} ShallowerFits(x: Json, depth: nat, less: nat)
    requires PartsFit(x, depth) && less <= depth
    ensures PartsFit(x, less)
    decreases x
  {
    match x
    case Array(items) =>
      forall i | 0 <= i < |items|
        ensures PartsFit(items[i], less + 1)
      {
        ShallowerFits(items[i], depth + 1, less + 1);
      }
    case Object(entries) =>
      forall i | 0 <= i < |entries|
        ensures PartsFit(entries[i].value, less + 1)
      {
        ShallowerFits(entries[i].value, depth + 1, less + 1);
      }
    case _ =>
  }

  // ---------- The limits, reached ----------

  lemma {:induction false} NestedFits(n: nat, depth: nat)
    requires n + depth <= 2_000
    ensures PartsFit(Nested(n), depth) <==> depth + n <= 64
    ensures Nodes(Nested(n)) == n + 1 && Bytes(Nested(n)) == 0
  {
    if n > 0 {
      NestedFits(n - 1, depth + 1);
      var items := [Nested(n - 1)];
      assert items[0] == Nested(n - 1) && items[1..] == [] && ItemNodes(items[1..]) == 0 && ItemBytes(items[1..]) == 0;
    }
  }

  lemma {:induction false} RepeatedMeasure(x: Json, n: nat)
    ensures ItemNodes(seq(n, _ => x)) == n * Nodes(x) && ItemBytes(seq(n, _ => x)) == n * Bytes(x)
  {
    hide Nodes, Bytes;
    if n > 0 {
      var items := seq(n, _ => x);
      assert items[0] == x && items[1..] == seq(n - 1, _ => x);
      RepeatedMeasure(x, n - 1);
      assert n * Nodes(x) == Nodes(x) + (n - 1) * Nodes(x) && n * Bytes(x) == Bytes(x) + (n - 1) * Bytes(x);
    }
  }

  lemma CopiesFit(x: Json, n: nat)
    requires PartsFit(x, 1)
    ensures PartsFit(Array(seq(n, _ => x)), 0)
  {
    var items := seq(n, _ => x);
    assert forall i :: 0 <= i < n ==> items[i] == x;
  }

  lemma CopiesBounded(x: Json, n: nat)
    requires PartsFit(x, 1)
    ensures Bounded(Array(seq(n, _ => x))) <==> 1 + n * Nodes(x) <= 2_000_000 && n * Bytes(x) <= 67_108_864
  {
    hide PartsFit, ItemNodes, ItemBytes;
    CopiesFit(x, n);
    RepeatedMeasure(x, n);
  }

  /** Each limit is reached and not passed: 64 levels, two million values, 16 KiB a string, 64 MiB in all. */
  lemma LimitsAreReached(n: nat, t: string)
    ensures n <= 1_000 ==> (Bounded(Nested(n)) <==> n <= 64)
    ensures Bounded(Array(seq(n, _ => Null))) <==> n < 2_000_000
    ensures Bounded(Text(t)) <==> ByteLength(t) <= 16_384
    ensures ByteLength(t) == 16_384 && n <= 10_000 ==> (Bounded(Array(seq(n, _ => Text(t)))) <==> n <= 4_096)
    ensures !Bounded(Number)
  {
    if n <= 1_000 {
      NestedFits(n, 0);
    }
    hide ByteLength, ItemNodes, ItemBytes, Nested;
    CopiesBounded(Null, n);
    if ByteLength(t) == 16_384 {
      CopiesBounded(Text(t), n);
    }
  }
}
