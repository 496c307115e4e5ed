/** The canonical text stands for the value up to Unicode normalization and the order of members, and for nothing
    else; with a domain in front it is still unambiguous. */
module CanonicalMeaning {
  import opened Wrappers
  import opened TextOrder
  import opened JsonText
  import opened CanonicalJson

  // ---------- The value a text stands for ----------

  /** The value with every string normalized and every object's members in order of their normalized keys. */
  function Normalized(nfc: Nfc, v: Json): Json
    decreases v, 1, 0
  {
    match v
    case Text(t) => Text(nfc(t))
    case Array(items) => Array(NormalizedItems(nfc, items))
    case Object(entries) => Object(SortEntries(NormalizedEntries(nfc, entries)))
    case _ => v
  }

  function NormalizedItems(nfc: Nfc, items: seq<Json>): (r: seq<Json>)
    ensures |r| == |items|
    decreases items, 0, |items|
  {
    if items == [] then [] else [Normalized(nfc, items[0])] + NormalizedItems(nfc, items[1..])
  }

  function NormalizedEntries(nfc: Nfc, entries: seq<Entry>): (r: seq<Entry>)
    ensures |r| == |entries|
    ensures forall i :: 0 <= i < |entries| ==> r[i] == Entry(nfc(entries[i].key), Normalized(nfc, entries[i].value))
    decreases entries, 0, |entries|
  {
    if entries == [] then []
    else
      [Entry(nfc(entries[0].key), Normalized(nfc, entries[0].value))] + NormalizedEntries(nfc, entries[1..])
  }

  function InsertEntry(e: Entry, sorted: seq<Entry>): seq<Entry> {
    if sorted == [] || CompareText(e.key, sorted[0].key) != Greater then [e] + sorted
    else [sorted[0]] + InsertEntry(e, sorted[1..])
  }

  function SortEntries(entries: seq<Entry>): seq<Entry> {
    if entries == [] then [] else InsertEntry(entries[0], SortEntries(entries[1..]))
  }

  // ---------- What is accepted ----------

  /** The values the canonicalizer accepts at a depth: no number, no string too long, nesting within the limit, and no
      two keys of one object alike after normalization. */
  predicate Acceptable(nfc: Nfc, v: Json, depth: nat) {
    && depth <= MAX_JSON_DEPTH
    && match v
       case Number => false
       case Text(t) => |t| <= MAX_JSON_LENGTH
       case Array(items) => forall i :: 0 <= i < |items| ==> Acceptable(nfc, items[i], depth + 1)
       case Object(entries) =>
         && KeysDistinct(nfc, entries)
         && (forall i :: 0 <= i < |entries| ==>
               |entries[i].key| <= MAX_JSON_LENGTH && |nfc(entries[i].key)| <= MAX_JSON_LENGTH)
         && forall i :: 0 <= i < |entries| ==> Acceptable(nfc, entries[i].value, depth + 1)
       case _ => true
  }

  predicate KeysDistinct(nfc: Nfc, entries: seq<Entry>) {
    forall i, j :: 0 <= i < j < |entries| ==> nfc(entries[i].key) != nfc(entries[j].key)
  }

  lemma HasKeyMeans(nfc: Nfc, entries: seq<Entry>, key: string)
    ensures HasKey(Keys(nfc, entries), key) <==> exists i :: 0 <= i < |entries| && nfc(entries[i].key) == key
  {
    var keys := Keys(nfc, entries);
    if HasKey(keys, key) {
      var i :| 0 <= i < |keys| && keys[i].key == key;
      assert nfc(entries[i].key) == key;
    }
    if i :| 0 <= i < |entries| && nfc(entries[i].key) == key {
      assert keys[i].key == key;
    }
  }

  lemma {:induction false} KeysErrorMeans(nfc: Nfc, entries: seq<Entry>)
    ensures KeysError(nfc, entries) == None
            <==> KeysDistinct(nfc, entries) && forall i :: 0 <= i < |entries| ==> |entries[i].key| <= MAX_JSON_LENGTH
  {
    hide Keys, HasKey;
    if entries != [] {
      var n := |entries| - 1;
      var front := entries[..n];
      KeysErrorMeans(nfc, front);
      HasKeyMeans(nfc, front, nfc(entries[n].key));
      assert forall i :: 0 <= i < n ==> front[i] == entries[i];
    }
  }

  /** The canonicalizer succeeds on exactly the acceptable values. */
  lemma {:induction false} AcceptsExactly(nfc: Nfc, v: Json, depth: nat)
    ensures Canonical(nfc, v, depth).Ok? <==> Acceptable(nfc, v, depth)
    decreases v, 1, 0
  {
    hide CanonicalItems, CanonicalMembers, KeysError, Keys, SortKnown, KeysDistinct;
    match v
    case Array(items) => ItemsAccepted(nfc, items, depth + 1);
    case Object(entries) =>
      KeysErrorMeans(nfc, entries);
      KeysAreMembers(nfc, v);
      MembersAccepted(nfc, v, SortKnown(Keys(nfc, entries)), depth + 1);
      assert forall i :: 0 <= i < |entries| ==> Known(nfc(entries[i].key), i) in SortKnown(Keys(nfc, entries));
    case _ =>
  }

  /** The sorted members are one for every entry, under its normalized key. */
  lemma KeysAreMembers(nfc: Nfc, v: Json)
    requires v.Object?
    ensures var members := SortKnown(Keys(nfc, v.entries));
            && MembersOf(v, members)
            && (forall i :: 0 <= i < |v.entries| ==> Known(nfc(v.entries[i].key), i) in members)
            && (forall k :: k in members ==> k.index < |v.entries| && k.key == nfc(v.entries[k.index].key))
  {
    var keys := Keys(nfc, v.entries);
    assert forall i :: 0 <= i < |keys| ==> keys[i] in keys;
  }

  lemma {:induction false} ItemsAccepted(nfc: Nfc, items: seq<Json>, depth: nat)
    ensures CanonicalItems(nfc, items, depth).Ok?
            <==> forall i :: 0 <= i < |items| ==> Acceptable(nfc, items[i], depth)
    decreases items, 0, |items|
  {
    hide Canonical, Acceptable;
    if items != [] {
      AcceptsExactly(nfc, items[0], depth);
      ItemsAccepted(nfc, items[1..], depth);
      assert forall i :: 1 <= i < |items| ==> items[i] == items[1..][i - 1];
    }
  }

  lemma {:induction false} MembersAccepted(nfc: Nfc, v: Json, members: seq<Known>, depth: nat)
    requires MembersOf(v, members)
    ensures CanonicalMembers(nfc, v, members, depth).Ok?
            <==> forall k :: k in members ==>
                   |k.key| <= MAX_JSON_LENGTH && Acceptable(nfc, v.entries[k.index].value, depth)
    decreases v, 0, |members|
  {
    hide Canonical, Acceptable;
    if members != [] {
      assert members == [members[0]] + members[1..];
      AcceptsExactly(nfc, v.entries[members[0].index].value, depth);
      MembersAccepted(nfc, v, members[1..], depth);
    }
  }

  // ---------- The text is the print of the normalized value ----------

  /** The entries the members of an object stand for. */
  function EntriesOf(nfc: Nfc, v: Json, members: seq<Known>): (r: seq<Entry>)
    requires MembersOf(v, members)
    ensures |r| == |members|
  {
    if members == [] then []
    else
      assert members[0] in members;
      [Entry(members[0].key, Normalized(nfc, v.entries[members[0].index].value))] + EntriesOf(nfc, v, members[1..])
  }

  lemma {:induction false} InsertCommutes(nfc: Nfc, v: Json, k: Known, sorted: seq<Known>)
    requires MembersOf(v, [k] + sorted) && MembersOf(v, sorted) && MembersOf(v, InsertKnown(k, sorted))
    requires k.index < |v.entries|
    ensures EntriesOf(nfc, v, InsertKnown(k, sorted))
            == InsertEntry(Entry(k.key, Normalized(nfc, v.entries[k.index].value)), EntriesOf(nfc, v, sorted))
  {
    hide Normalized;
    if sorted == [] || CompareText(k.key, sorted[0].key) != Greater {
      assert ([k] + sorted)[1..] == sorted;
    } else {
      InsertKnownHas(k, sorted[1..]);
      assert sorted[0] in sorted;
      InsertCommutes(nfc, v, k, sorted[1..]);
      var rest := InsertKnown(k, sorted[1..]);
      assert ([sorted[0]] + rest)[1..] == rest;
    }
  }

  lemma {:induction false} SortCommutes(nfc: Nfc, v: Json, keys: seq<Known>)
    requires MembersOf(v, keys) && MembersOf(v, SortKnown(keys))
    ensures EntriesOf(nfc, v, SortKnown(keys)) == SortEntries(EntriesOf(nfc, v, keys))
  {
    hide Normalized;
    if keys != [] {
      assert keys[0] in keys;
      SortCommutes(nfc, v, keys[1..]);
      InsertKnownHas(keys[0], SortKnown(keys[1..]));
      InsertCommutes(nfc, v, keys[0], SortKnown(keys[1..]));
    }
  }

  lemma {:induction false} EntriesAt(nfc: Nfc, v: Json, members: seq<Known>)
    requires MembersOf(v, members)
    ensures forall i :: 0 <= i < |members| ==>
              && members[i].index < |v.entries|
              && EntriesOf(nfc, v, members)[i]
                 == Entry(members[i].key, Normalized(nfc, v.entries[members[i].index].value))
  {
    hide Normalized;
    if members != [] {
      assert members[0] in members;
      EntriesAt(nfc, v, members[1..]);
    }
  }

  lemma KeysAreEntries(nfc: Nfc, v: Json)
    requires v.Object?
    ensures var keys := Keys(nfc, v.entries);
            && MembersOf(v, keys) && MembersOf(v, SortKnown(keys))
            && EntriesOf(nfc, v, keys) == NormalizedEntries(nfc, v.entries)
  {
    EntriesAt(nfc, v, Keys(nfc, v.entries));
  }

  /** The canonical text of a value is the printed text of its normalized form. */
  lemma {:induction false} CanonicalIsPrint(nfc: Nfc, v: Json, depth: nat)
    requires Idempotent(nfc) && Canonical(nfc, v, depth).Ok?
    ensures NumberFree(Normalized(nfc, v)) && Canonical(nfc, v, depth).value == Print(Normalized(nfc, v))
    decreases v, 1, 0
  {
    hide CanonicalItems, CanonicalMembers, KeysError, Keys, SortKnown, SortEntries, NormalizedItems, NormalizedEntries;
    hide EntriesOf, PrintItems, PrintEntries, Quoted, Idempotent;
    match v
    case Array(items) => ItemsArePrint(nfc, items, depth + 1);
    case Object(entries) =>
      var members := SortKnown(Keys(nfc, entries));
      KeysAreEntries(nfc, v);
      SortCommutes(nfc, v, Keys(nfc, entries));
      NormalizedKeys(nfc, entries);
      MembersArePrint(nfc, v, members, depth + 1);
      assert Normalized(nfc, v) == Object(EntriesOf(nfc, v, members));
    case _ =>
  }

  /** Sorted keys are normalized keys. */
  lemma NormalizedKeys(nfc: Nfc, entries: seq<Entry>)
    requires Idempotent(nfc)
    ensures forall k :: k in SortKnown(Keys(nfc, entries)) ==> nfc(k.key) == k.key
  {
  }

  lemma {:induction false} ItemsArePrint(nfc: Nfc, items: seq<Json>, depth: nat)
    requires Idempotent(nfc) && CanonicalItems(nfc, items, depth).Ok?
    ensures var xs := NormalizedItems(nfc, items);
            && (forall i :: 0 <= i < |xs| ==> NumberFree(xs[i]))
            && CanonicalItems(nfc, items, depth).value == PrintItems(xs)
    decreases items, 0, |items|
  {
    hide Canonical, Normalized, Print;
    if items != [] {
      CanonicalIsPrint(nfc, items[0], depth);
      if |items| > 1 {
        ItemsArePrint(nfc, items[1..], depth);
      } else {
        assert items[1..] == [];
      }
      assert NormalizedItems(nfc, items)[1..] == NormalizedItems(nfc, items[1..]);
    }
  }

  lemma {:induction false} MembersArePrint(nfc: Nfc, v: Json, members: seq<Known>, depth: nat)
    requires Idempotent(nfc) && MembersOf(v, members) && CanonicalMembers(nfc, v, members, depth).Ok?
    requires forall k :: k in members ==> nfc(k.key) == k.key
    ensures var es := EntriesOf(nfc, v, members);
            && (forall i :: 0 <= i < |es| ==> NumberFree(es[i].value))
            && CanonicalMembers(nfc, v, members, depth).value == PrintEntries(es)
    decreases v, 0, |members|
  {
    hide Canonical, Normalized, Print;
    if members != [] {
      assert members[0] in members;
      CanonicalIsPrint(nfc, v.entries[members[0].index].value, depth);
      if |members| > 1 {
        MembersArePrint(nfc, v, members[1..], depth);
      } else {
        assert members[1..] == [];
      }
      assert EntriesOf(nfc, v, members)[1..] == EntriesOf(nfc, v, members[1..]);
    }
  }

  // ---------- Unambiguous ----------

  /** Parsing the canonical text gives back the value, normalized. */
  lemma CanonicalParses(nfc: Nfc, v: Json, rest: string)
    requires Idempotent(nfc) && Acceptable(nfc, v, 0)
    ensures Canonical(nfc, v, 0).Ok? && ScanValue(Canonical(nfc, v, 0).value + rest) == Some(Scan(Normalized(nfc, v), rest))
  {
    AcceptsExactly(nfc, v, 0);
    CanonicalIsPrint(nfc, v, 0);
    PrintParses(Normalized(nfc, v), rest);
  }

  predicate ZeroFree(s: string) {
    forall i :: 0 <= i < |s| ==> s[i] != 0 as char
  }

  /** What is hashed: the domain, a zero, and the canonical text. */
  function Preimage(domain: string, text: string): string {
    domain + [0 as char] + text
  }

  function FirstZero(s: string): nat {
    if s == "" || s[0] == 0 as char then 0 else 1 + FirstZero(s[1..])
  }

  lemma {:induction false} ZeroEndsDomain(d: string, x: string)
    requires ZeroFree(d)
    ensures FirstZero(Preimage(d, x)) == |d|
  {
    if d != "" {
      ZeroEndsDomain(d[1..], x);
      assert Preimage(d, x)[1..] == Preimage(d[1..], x);
    }
  }

  lemma DomainsSeparate(d: string, e: string, x: string, y: string)
    requires ZeroFree(d) && ZeroFree(e)
    ensures Preimage(d, x) == Preimage(e, y) <==> d == e && x == y
  {
    ZeroEndsDomain(d, x);
    ZeroEndsDomain(e, y);
    if Preimage(d, x) == Preimage(e, y) {
      assert d == Preimage(d, x)[..|d|] && e == Preimage(e, y)[..|e|];
      assert x == Preimage(d, x)[|d| + 1..] && y == Preimage(e, y)[|e| + 1..];
    }
  }

  /** Two commitments hash the same text exactly when they share the domain and mean the same value. */
  lemma CommitmentsAreInjective(nfc: Nfc, d: string, e: string, v: Json, w: Json)
    requires Idempotent(nfc) && ZeroFree(d) && ZeroFree(e) && Acceptable(nfc, v, 0) && Acceptable(nfc, w, 0)
    ensures Canonical(nfc, v, 0).Ok? && Canonical(nfc, w, 0).Ok?
    ensures Preimage(d, Canonical(nfc, v, 0).value) == Preimage(e, Canonical(nfc, w, 0).value)
            <==> d == e && Normalized(nfc, v) == Normalized(nfc, w)
  {
    hide Canonical, Normalized, Acceptable, Print, ScanValue;
    AcceptsExactly(nfc, v, 0);
    AcceptsExactly(nfc, w, 0);
    var x, y := Canonical(nfc, v, 0).value, Canonical(nfc, w, 0).value;
    DomainsSeparate(d, e, x, y);
    CanonicalIsPrint(nfc, v, 0);
    CanonicalIsPrint(nfc, w, 0);
    CanonicalParses(nfc, v, "");
    CanonicalParses(nfc, w, "");
  }

  // ---------- The order of members does not matter ----------

  predicate Ascending(entries: seq<Entry>) {
    forall i, j :: 0 <= i < j < |entries| ==> CompareText(entries[i].key, entries[j].key) == Less
  }

  predicate DistinctKeys(entries: seq<Entry>) {
    forall i, j :: 0 <= i < j < |entries| ==> entries[i].key != entries[j].key
  }

  lemma {:induction false} InsertEntryIs(e: Entry, sorted: seq<Entry>)
    requires Ascending(sorted) && forall f :: f in sorted ==> f.key != e.key
    ensures var r := InsertEntry(e, sorted);
            Ascending(r) && |r| == |sorted| + 1 && forall f :: f in r <==> f == e || f in sorted
  {
    hide CompareText;
    if sorted != [] {
      assert sorted == [sorted[0]] + sorted[1..] && sorted[0] in sorted;
      EqualTexts(e.key, sorted[0].key);
      TextsFlip(e.key, sorted[0].key);
      if CompareText(e.key, sorted[0].key) == Greater {
        InsertEntryIs(e, sorted[1..]);
        var rest := InsertEntry(e, sorted[1..]);
        assert forall i :: 0 <= i < |rest| ==> rest[i] in rest;
        forall f | f in rest
          ensures CompareText(sorted[0].key, f.key) == Less
        {
        }
      } else {
        forall i | 0 <= i < |sorted|
          ensures CompareText(e.key, sorted[i].key) == Less
        {
          if i > 0 {
            TextsTransitive(e.key, sorted[0].key, sorted[i].key);
          }
        }
      }
    }
  }

  lemma {:induction false} SortEntriesIs(entries: seq<Entry>)
    requires DistinctKeys(entries)
    ensures var r := SortEntries(entries);
            Ascending(r) && |r| == |entries| && forall e :: e in r <==> e in entries
  {
    if entries != [] {
      assert entries == [entries[0]] + entries[1..];
      SortEntriesIs(entries[1..]);
      InsertEntryIs(entries[0], SortEntries(entries[1..]));
    }
  }

  /** An ascending list is determined by its elements. */
  lemma {:induction false} AscendingIsUnique(a: seq<Entry>, b: seq<Entry>)
    requires Ascending(a) && Ascending(b) && forall e :: e in a <==> e in b
    ensures a == b
  {
    hide CompareText;
    assert b != [] ==> b[0] in b;
    if a != [] {
      assert a[0] in b && b[0] in a;
      TextsFlip(a[0].key, b[0].key);
      EqualTexts(a[0].key, a[0].key);
      assert a[0] == b[0];
      forall e
        ensures e in a[1..] <==> e in b[1..]
      {
        TailHas(a, e);
        TailHas(b, e);
      }
      AscendingIsUnique(a[1..], b[1..]);
    }
  }

  lemma TailHas(a: seq<Entry>, e: Entry)
    requires a != [] && Ascending(a)
    ensures e in a[1..] <==> e in a && e != a[0]
  {
    EqualTexts(a[0].key, a[0].key);
    assert a == [a[0]] + a[1..];
  }

  /** Permuting the members of an acceptable object changes neither its acceptance nor its canonical text. */
  lemma MemberOrderIsIrrelevant(nfc: Nfc, es: seq<Entry>, fs: seq<Entry>, depth: nat)
    requires Idempotent(nfc) && Acceptable(nfc, Object(es), depth)
    requires |es| == |fs| && KeysDistinct(nfc, fs) && forall e :: e in es <==> e in fs
    ensures Acceptable(nfc, Object(fs), depth)
    ensures Canonical(nfc, Object(fs), depth) == Canonical(nfc, Object(es), depth)
  {
    forall i | 0 <= i < |fs|
      ensures |fs[i].key| <= MAX_JSON_LENGTH && |nfc(fs[i].key)| <= MAX_JSON_LENGTH
      ensures Acceptable(nfc, fs[i].value, depth + 1)
    {
      assert fs[i] in es;
    }
    AcceptsExactly(nfc, Object(es), depth);
    AcceptsExactly(nfc, Object(fs), depth);
    CanonicalIsPrint(nfc, Object(es), depth);
    CanonicalIsPrint(nfc, Object(fs), depth);
    hide Canonical, Acceptable;
    var a, b := NormalizedEntries(nfc, es), NormalizedEntries(nfc, fs);
    SortEntriesIs(a);
    SortEntriesIs(b);
    SameNormalized(nfc, es, fs);
    SameNormalized(nfc, fs, es);
    AscendingIsUnique(SortEntries(a), SortEntries(b));
  }

  lemma SameNormalized(nfc: Nfc, es: seq<Entry>, fs: seq<Entry>)
    requires forall e :: e in es ==> e in fs
    ensures forall x :: x in NormalizedEntries(nfc, es) ==> x in NormalizedEntries(nfc, fs)
  {
    hide Normalized;
    forall x | x in NormalizedEntries(nfc, es)
      ensures x in NormalizedEntries(nfc, fs)
    {
      var i :| 0 <= i < |es| && NormalizedEntries(nfc, es)[i] == x;
      assert es[i] in fs;
      var j :| 0 <= j < |fs| && fs[j] == es[i];
      assert NormalizedEntries(nfc, fs)[j] == x;
    }
  }

  // ---------- Canonicalizing twice ----------

  lemma {:induction false} NormalizedAt(nfc: Nfc, items: seq<Json>)
    ensures forall i :: 0 <= i < |items| ==> NormalizedItems(nfc, items)[i] == Normalized(nfc, items[i])
  {
    hide Normalized;
    if items != [] {
      NormalizedAt(nfc, items[1..]);
    }
  }

  /** A normalized value is its own normal form. */
  lemma {:induction false} NormalizedTwice(nfc: Nfc, v: Json, depth: nat)
    requires Idempotent(nfc) && Acceptable(nfc, v, depth)
    ensures Normalized(nfc, Normalized(nfc, v)) == Normalized(nfc, v)
    decreases v
  {
    match v
    case Array(items) =>
      var xs := NormalizedItems(nfc, items);
      NormalizedAt(nfc, items);
      NormalizedAt(nfc, xs);
      forall i | 0 <= i < |items|
        ensures Normalized(nfc, xs[i]) == xs[i]
      {
        NormalizedTwice(nfc, items[i], depth + 1);
      }
      assert NormalizedItems(nfc, xs) == xs;
    case Object(entries) =>
      var es := NormalizedEntries(nfc, entries);
      forall i | 0 <= i < |entries|
        ensures Normalized(nfc, es[i].value) == es[i].value
      {
        NormalizedTwice(nfc, entries[i].value, depth + 1);
      }
      SortEntriesIs(es);
      SortedStaysSorted(nfc, es);
    case _ =>
  }

  lemma SortedStaysSorted(nfc: Nfc, es: seq<Entry>)
    requires DistinctKeys(es) && Ascending(SortEntries(es)) && forall e :: e in SortEntries(es) <==> e in es
    requires forall i :: 0 <= i < |es| ==> nfc(es[i].key) == es[i].key && Normalized(nfc, es[i].value) == es[i].value
    ensures SortEntries(NormalizedEntries(nfc, SortEntries(es))) == SortEntries(es)
  {
    hide Normalized, SortEntries, CompareText, Ascending, DistinctKeys;
    var sorted := SortEntries(es);
    forall i | 0 <= i < |sorted|
      ensures NormalizedEntries(nfc, sorted)[i] == sorted[i]
    {
      assert sorted[i] in es;
    }
    assert NormalizedEntries(nfc, sorted) == sorted;
    AscendingIsDistinct(sorted);
    SortEntriesIs(sorted);
    AscendingIsUnique(SortEntries(sorted), sorted);
  }

  lemma AscendingIsDistinct(entries: seq<Entry>)
    requires Ascending(entries)
    ensures DistinctKeys(entries)
  {
    hide CompareText;
    forall i, j | 0 <= i < j < |entries|
      ensures entries[i].key != entries[j].key
    {
      EqualTexts(entries[i].key, entries[j].key);
    }
  }

  /** Reading a canonical text and canonicalizing again gives the same text, if the normalized strings still fit. */
  lemma CanonicalIsStable(nfc: Nfc, v: Json)
    requires Idempotent(nfc) && Acceptable(nfc, v, 0) && Acceptable(nfc, Normalized(nfc, v), 0)
    ensures Canonical(nfc, Normalized(nfc, v), 0) == Canonical(nfc, v, 0)
  {
    hide Canonical, Acceptable, Print;
    NormalizedTwice(nfc, v, 0);
    AcceptsExactly(nfc, v, 0);
    AcceptsExactly(nfc, Normalized(nfc, v), 0);
    CanonicalIsPrint(nfc, v, 0);
    CanonicalIsPrint(nfc, Normalized(nfc, v), 0);
  }

  // ---------- The Python canonicalizer ----------

  /** No depth or size limits; keys are quoted as already normalized. None is a raised error. */
  function PyCanonical(nfc: Nfc, v: Json): Option<string>
    decreases v, 1, 0
  {
    match v
    case Null => Some("null")
    case Bool(b) => Some(if b then "true" else "false")
    case Number => None
    case Text(t) => Some(Quoted(nfc(t)))
    case Array(items) =>
      var inner := PyItems(nfc, items);
      if inner == None then None else Some("[" + inner.value + "]")
    case Object(entries) =>
      if !KeysDistinct(nfc, entries) then None
      else
        var inner := PyMembers(nfc, v, SortKnown(Keys(nfc, entries)));
        if inner == None then None else Some("{" + inner.value + "}")
  }

  function PyItems(nfc: Nfc, items: seq<Json>): Option<string>
    decreases items, 0, |items|
  {
    if items == [] then Some("")
    else
      var first := PyCanonical(nfc, items[0]);
      var more := PyItems(nfc, items[1..]);
      if first == None || more == None then None
      else Some(if |items| == 1 then first.value else first.value + "," + more.value)
  }

  function PyMembers(nfc: Nfc, v: Json, members: seq<Known>): Option<string>
    requires MembersOf(v, members)
    decreases v, 0, |members|
  {
    if members == [] then Some("")
    else
      assert members[0] in members;
      var first := PyCanonical(nfc, v.entries[members[0].index].value);
      var more := PyMembers(nfc, v, members[1..]);
      if first == None || more == None then None
      else
        var member := Quoted(members[0].key) + ":" + first.value;
        Some(if |members| == 1 then member else member + "," + more.value)
  }

  /** On everything the Rust canonicalizer accepts, the Python one writes the same text. */
  lemma {:induction false} CanonicalizersAgree(nfc: Nfc, v: Json, depth: nat)
    requires Idempotent(nfc) && Canonical(nfc, v, depth).Ok?
    ensures PyCanonical(nfc, v) == Some(Canonical(nfc, v, depth).value)
    decreases v, 1, 0
  {
    hide CanonicalItems, CanonicalMembers, KeysError, Keys, SortKnown, PyItems, PyMembers, Quoted, Idempotent, KeysDistinct;
    match v
    case Array(items) => ItemsAgree(nfc, items, depth + 1);
    case Object(entries) =>
      KeysErrorMeans(nfc, entries);
      KeysAreMembers(nfc, v);
      NormalizedKeys(nfc, entries);
      MembersAgree(nfc, v, SortKnown(Keys(nfc, entries)), depth + 1);
    case _ =>
  }

  lemma {:induction false} ItemsAgree(nfc: Nfc, items: seq<Json>, depth: nat)
    requires Idempotent(nfc) && CanonicalItems(nfc, items, depth).Ok?
    ensures PyItems(nfc, items) == Some(CanonicalItems(nfc, items, depth).value)
    decreases items, 0, |items|
  {
    hide Canonical, PyCanonical;
    if items != [] {
      CanonicalizersAgree(nfc, items[0], depth);
      if |items| > 1 {
        ItemsAgree(nfc, items[1..], depth);
      }
    }
  }

  lemma {:induction false} MembersAgree(nfc: Nfc, v: Json, members: seq<Known>, depth: nat)
    requires Idempotent(nfc) && MembersOf(v, members) && CanonicalMembers(nfc, v, members, depth).Ok?
    requires forall k :: k in members ==> nfc(k.key) == k.key
    ensures PyMembers(nfc, v, members) == Some(CanonicalMembers(nfc, v, members, depth).value)
    decreases v, 0, |members|
  {
    hide Canonical, PyCanonical;
    if members != [] {
      assert members[0] in members;
      CanonicalizersAgree(nfc, v.entries[members[0].index].value, depth);
      if |members| > 1 {
        MembersAgree(nfc, v, members[1..], depth);
      }
    }
  }

  // ---------- Where the two canonicalizers part ----------

  /** The limits only the Rust canonicalizer knows: nesting, and the length of strings and keys. */
  predicate WithinLimits(nfc: Nfc, v: Json, depth: nat) {
    && depth <= MAX_JSON_DEPTH
    && match v
       case Text(t) => |t| <= MAX_JSON_LENGTH
       case Array(items) => forall i :: 0 <= i < |items| ==> WithinLimits(nfc, items[i], depth + 1)
       case Object(entries) =>
         forall i :: 0 <= i < |entries| ==>
           && |entries[i].key| <= MAX_JSON_LENGTH && |nfc(entries[i].key)| <= MAX_JSON_LENGTH
           && WithinLimits(nfc, entries[i].value, depth + 1)
       case _ => true
  }

  /** What both refuse: numbers, and keys alike after normalization. */
  predicate Portable(nfc: Nfc, v: Json) {
    match v
    case Number => false
    case Array(items) => forall i :: 0 <= i < |items| ==> Portable(nfc, items[i])
    case Object(entries) =>
      KeysDistinct(nfc, entries) && forall i :: 0 <= i < |entries| ==> Portable(nfc, entries[i].value)
    case _ => true
  }

  lemma {:induction false} PyAcceptsExactly(nfc: Nfc, v: Json)
    ensures PyCanonical(nfc, v).Some? <==> Portable(nfc, v)
    decreases v, 1, 0
  {
    hide PyItems, PyMembers, Keys, SortKnown, KeysDistinct;
    match v
    case Array(items) => PyItemsAccepted(nfc, items);
    case Object(entries) =>
      KeysAreMembers(nfc, v);
      PyMembersAccepted(nfc, v, SortKnown(Keys(nfc, entries)));
      assert forall i :: 0 <= i < |entries| ==> Known(nfc(entries[i].key), i) in SortKnown(Keys(nfc, entries));
    case _ =>
  }

  lemma {:induction false} PyItemsAccepted(nfc: Nfc, items: seq<Json>)
    ensures PyItems(nfc, items).Some? <==> forall i :: 0 <= i < |items| ==> Portable(nfc, items[i])
    decreases items, 0, |items|
  {
    hide PyCanonical, Portable;
    if items != [] {
      PyAcceptsExactly(nfc, items[0]);
      PyItemsAccepted(nfc, items[1..]);
      assert forall i :: 1 <= i < |items| ==> items[i] == items[1..][i - 1];
    }
  }

  lemma {:induction false} PyMembersAccepted(nfc: Nfc, v: Json, members: seq<Known>)
    requires MembersOf(v, members)
    ensures PyMembers(nfc, v, members).Some?
            <==> forall k :: k in members ==> Portable(nfc, v.entries[k.index].value)
    decreases v, 0, |members|
  {
    hide PyCanonical, Portable;
    if members != [] {
      assert members == [members[0]] + members[1..];
      PyAcceptsExactly(nfc, v.entries[members[0].index].value);
      PyMembersAccepted(nfc, v, members[1..]);
    }
  }

  lemma {:induction false} AcceptableParts(nfc: Nfc, v: Json, depth: nat)
    ensures Acceptable(nfc, v, depth) <==> Portable(nfc, v) && WithinLimits(nfc, v, depth)
    decreases v
  {
    match v
    case Array(items) =>
      forall i | 0 <= i < |items|
        ensures Acceptable(nfc, items[i], depth + 1)
                <==> Portable(nfc, items[i]) && WithinLimits(nfc, items[i], depth + 1)
      {
        AcceptableParts(nfc, items[i], depth + 1);
      }
    case Object(entries) =>
      forall i | 0 <= i < |entries|
        ensures Acceptable(nfc, entries[i].value, depth + 1)
                <==> Portable(nfc, entries[i].value) && WithinLimits(nfc, entries[i].value, depth + 1)
      {
        AcceptableParts(nfc, entries[i].value, depth + 1);
      }
    case _ =>
  }

  /** The Rust canonicalizer takes exactly what the Python one takes within the limits, and writes the same text. */
  lemma CanonicalizersPart(nfc: Nfc, v: Json)
    requires Idempotent(nfc)
    ensures Canonical(nfc, v, 0).Ok? <==> PyCanonical(nfc, v).Some? && WithinLimits(nfc, v, 0)
    ensures Canonical(nfc, v, 0).Ok? ==> PyCanonical(nfc, v) == Some(Canonical(nfc, v, 0).value)
  {
    hide Canonical, PyCanonical, Acceptable, Portable, WithinLimits, Idempotent;
    AcceptsExactly(nfc, v, 0);
    PyAcceptsExactly(nfc, v);
    AcceptableParts(nfc, v, 0);
    if Canonical(nfc, v, 0).Ok? {
      CanonicalizersAgree(nfc, v, 0);
    }
  }

  // ---------- The limits, reached ----------

  lemma {:induction false} NestedAccepted(nfc: Nfc, n: nat, depth: nat)
    requires n + depth <= 2_000
    ensures Acceptable(nfc, Nested(n), depth) <==> depth + n <= 64
  {
    if n > 0 {
      NestedAccepted(nfc, n - 1, depth + 1);
      assert [Nested(n - 1)][0] == Nested(n - 1);
    }
  }

  /** Each limit is reached and not passed: 64 levels, and 1 MiB for a string or a key. */
  lemma LimitsAreReached(nfc: Nfc, n: nat, t: string)
    ensures n <= 1_000 ==> (Canonical(nfc, Nested(n), 0).Ok? <==> n <= 64)
    ensures Canonical(nfc, Text(t), 0) == if |t| <= 1_048_576 then Ok(Quoted(nfc(t))) else Err(InvalidValue)
    ensures Canonical(nfc, Object([Entry(t, Null)]), 0).Ok? <==> |t| <= 1_048_576 && |nfc(t)| <= 1_048_576
    ensures Canonical(nfc, Number, 0) == Err(NumberForbidden) && Canonical(nfc, Null, 65) == Err(DepthExceeded)
    ensures |t| <= 1_048_576 ==> Canonical(nfc, Object([Entry(t, Null), Entry(t, Null)]), 0) == Err(NfcCollision)
  {
    if n <= 1_000 {
      NestedAccepted(nfc, n, 0);
      AcceptsExactly(nfc, Nested(n), 0);
    }
    if |t| <= 1_048_576 {
      TwiceCollides(nfc, t);
    }
    hide CanonicalItems, CanonicalMembers, KeysError, Keys, SortKnown;
    var one := [Entry(t, Null)];
    AcceptsExactly(nfc, Object(one), 0);
    assert one[0].key == t && Acceptable(nfc, one[0].value, 1);
  }

  lemma TwiceCollides(nfc: Nfc, t: string)
    requires |t| <= 1_048_576
    ensures KeysError(nfc, [Entry(t, Null), Entry(t, Null)]) == Some(NfcCollision)
  {
    var one, two := [Entry(t, Null)], [Entry(t, Null), Entry(t, Null)];
    assert two[..1] == one && one[..0] == [];
    assert KeysError(nfc, []) == None && Keys(nfc, []) == [];
    HasKeyMeans(nfc, one, nfc(t));
    HasKeyMeans(nfc, [], nfc(t));
    assert one[0].key == t;
  }
}
