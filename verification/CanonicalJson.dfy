/** The canonical form whose bytes are hashed as commitments. Unicode normalization is a parameter. */
module CanonicalJson {
  import opened Wrappers
  import opened TextOrder
  import opened JsonText

  const MAX_JSON_DEPTH: nat := 64
  const MAX_JSON_LENGTH: nat := 1_048_576

  type Nfc = string -> string

  ghost predicate Idempotent(nfc: Nfc) {
    forall s :: nfc(nfc(s)) == nfc(s)
  }

  datatype JsonError = DepthExceeded | NumberForbidden | InvalidValue | NfcCollision

  /** A normalized key and the place of its member in the object. */
  datatype Known = Known(key: string, index: nat)

  // ---------- What the canonicalizer computes ----------

  function QuoteText(nfc: Nfc, s: string): Result<string, JsonError> {
    if |s| > MAX_JSON_LENGTH then Err(InvalidValue) else Ok(Quoted(nfc(s)))
  }

  function Keys(nfc: Nfc, entries: seq<Entry>): (keys: seq<Known>)
    ensures |keys| == |entries|
    ensures forall i :: 0 <= i < |keys| ==> keys[i] == Known(nfc(entries[i].key), i)
  {
    if entries == [] then []
    else
      var n := |entries| - 1;
      Keys(nfc, entries[..n]) + [Known(nfc(entries[n].key), n)]
  }

  predicate HasKey(keys: seq<Known>, key: string) {
    exists i :: 0 <= i < |keys| && keys[i].key == key
  }

  /** The first key that is too long or collides with an earlier one. */
  function KeysError(nfc: Nfc, entries: seq<Entry>): Option<JsonError> {
    if entries == [] then None
    else
      var n := |entries| - 1;
      var earlier := KeysError(nfc, entries[..n]);
      if earlier.Some? then earlier
      else if |entries[n].key| > MAX_JSON_LENGTH then Some(InvalidValue)
      else if HasKey(Keys(nfc, entries[..n]), nfc(entries[n].key)) then Some(NfcCollision)
      else None
  }

  function InsertKnown(k: Known, sorted: seq<Known>): seq<Known> {
    if sorted == [] || CompareText(k.key, sorted[0].key) != Greater then [k] + sorted
    else [sorted[0]] + InsertKnown(k, sorted[1..])
  }

  function SortKnown(keys: seq<Known>): (sorted: seq<Known>)
    ensures forall k :: k in sorted <==> k in keys
  {
    if keys == [] then []
    else
      InsertKnownHas(keys[0], SortKnown(keys[1..]));
      assert keys == [keys[0]] + keys[1..];
      InsertKnown(keys[0], SortKnown(keys[1..]))
  }

  lemma {:induction false} InsertKnownHas(k: Known, sorted: seq<Known>)
    ensures forall x :: x in InsertKnown(k, sorted) <==> x == k || x in sorted
  {
    if sorted != [] && CompareText(k.key, sorted[0].key) == Greater {
      InsertKnownHas(k, sorted[1..]);
      assert sorted == [sorted[0]] + sorted[1..];
    }
  }

  function Canonical(nfc: Nfc, v: Json, depth: nat): Result<string, JsonError>
    decreases v, 1, 0
  {
    if depth > MAX_JSON_DEPTH then Err(DepthExceeded)
    else match v
      case Null => Ok("null")
      case Bool(b) => Ok(if b then "true" else "false")
      case Number => Err(NumberForbidden)
      case Text(t) => QuoteText(nfc, t)
      case Array(items) =>
        (match CanonicalItems(nfc, items, depth + 1)
         case Err(e) => Err(e)
         case Ok(s) => Ok("[" + s + "]"))
      case Object(entries) =>
        if KeysError(nfc, entries).Some? then Err(KeysError(nfc, entries).value)
        else match CanonicalMembers(nfc, v, SortKnown(Keys(nfc, entries)), depth + 1)
          case Err(e) => Err(e)
          case Ok(s) => Ok("{" + s + "}")
  }

  function CanonicalItems(nfc: Nfc, items: seq<Json>, depth: nat): Result<string, JsonError>
    decreases items, 0, |items|
  {
    if items == [] then Ok("")
    else match Canonical(nfc, items[0], depth)
      case Err(e) => Err(e)
      case Ok(s) =>
        if |items| == 1 then Ok(s)
        else match CanonicalItems(nfc, items[1..], depth)
          case Err(e) => Err(e)
          case Ok(more) => Ok(s + "," + more)
  }

  predicate MembersOf(v: Json, members: seq<Known>) {
    v.Object? && forall k :: k in members ==> k.index < |v.entries|
  }

  function CanonicalMember(nfc: Nfc, v: Json, k: Known, depth: nat): Result<string, JsonError>
    requires v.Object? && k.index < |v.entries|
    decreases v, 0, 0
  {
    match QuoteText(nfc, k.key)
    case Err(e) => Err(e)
    case Ok(key) =>
      match Canonical(nfc, v.entries[k.index].value, depth)
      case Err(e) => Err(e)
      case Ok(s) => Ok(key + ":" + s)
  }

  function CanonicalMembers(nfc: Nfc, v: Json, members: seq<Known>, depth: nat): Result<string, JsonError>
    requires MembersOf(v, members)
    decreases v, 0, |members| + 1
  {
    if members == [] then Ok("")
    else match CanonicalMember(nfc, v, members[0], depth)
      case Err(e) => Err(e)
      case Ok(s) =>
        if |members| == 1 then Ok(s)
        else match CanonicalMembers(nfc, v, members[1..], depth)
          case Err(e) => Err(e)
          case Ok(more) => Ok(s + "," + more)
  }

  // ---------- The canonicalizer as it runs ----------

  /** The text so far, continued by the parts still to come. */
  function Resume(soFar: string, started: bool, ended: bool, rest: Result<string, JsonError>): Result<string, JsonError> {
    if !started then rest
    else if ended then Ok(soFar)
    else match rest
      case Err(e) => Err(e)
      case Ok(more) => Ok(soFar + "," + more)
  }

  lemma ResumeStep(soFar: string, started: bool, s: string, ended: bool, rest: Result<string, JsonError>)
    ensures Resume(soFar, started, false,
                   if ended then Ok(s) else match rest case Err(e) => Err(e) case Ok(more) => Ok(s + "," + more))
            == Resume(if started then soFar + "," + s else s, true, ended, rest)
  {
    if started && !ended && rest.Ok? {
      assert soFar + "," + (s + "," + rest.value) == soFar + "," + s + "," + rest.value;
    }
  }

  lemma ResumeStart(whole: Result<string, JsonError>)
    ensures Resume("", false, false, whole) == whole
  {
  }

  lemma ResumeFails(soFar: string, started: bool, e: JsonError)
    ensures Resume(soFar, started, false, Err(e)) == Err(e)
  {
  }

  lemma ResumeEnds(soFar: string, started: bool, rest: Result<string, JsonError>)
    ensures started ==> Resume(soFar, started, true, rest) == Ok(soFar)
    ensures !started ==> Resume(soFar, started, false, rest) == rest
  {
  }

  lemma NothingLeft(nfc: Nfc, v: Json, depth: nat)
    ensures CanonicalItems(nfc, [], depth) == Ok("")
    ensures v.Object? ==> CanonicalMembers(nfc, v, [], depth) == Ok("")
  {
  }

  lemma FirstItem(nfc: Nfc, items: seq<Json>, i: nat, depth: nat)
    requires i < |items|
    ensures CanonicalItems(nfc, items[i..], depth)
            == match Canonical(nfc, items[i], depth)
               case Err(e) => Err(e)
               case Ok(s) =>
                 if i + 1 == |items| then Ok(s)
                 else match CanonicalItems(nfc, items[i + 1..], depth)
                   case Err(e) => Err(e)
                   case Ok(more) => Ok(s + "," + more)
  {
    hide Canonical;
    assert items[i..][0] == items[i] && items[i..][1..] == items[i + 1..];
  }

  lemma FirstMember(nfc: Nfc, v: Json, members: seq<Known>, i: nat, depth: nat)
    requires MembersOf(v, members) && i < |members|
    ensures members[i].index < |v.entries|
    ensures CanonicalMembers(nfc, v, members[i..], depth)
            == match CanonicalMember(nfc, v, members[i], depth)
               case Err(e) => Err(e)
               case Ok(s) =>
                 if i + 1 == |members| then Ok(s)
                 else match CanonicalMembers(nfc, v, members[i + 1..], depth)
                   case Err(e) => Err(e)
                   case Ok(more) => Ok(s + "," + more)
  {
    hide CanonicalMember;
    assert members[i] in members;
    assert members[i..][0] == members[i] && members[i..][1..] == members[i + 1..];
  }

  method CanonicalizeInner(nfc: Nfc, v: Json, depth: nat) returns (r: Result<string, JsonError>)
    ensures r == Canonical(nfc, v, depth)
    decreases v, 1
  {
    hide CanonicalItems, CanonicalMembers, KeysError, Keys, SortKnown;
    if depth > MAX_JSON_DEPTH { return Err(DepthExceeded); }
    match v
    case Null => return Ok("null");
    case Bool(b) => return Ok(if b then "true" else "false");
    case Number => return Err(NumberForbidden);
    case Text(t) => return QuoteText(nfc, t);
    case Array(items) =>
      var output := CanonicalizeItems(nfc, items, depth + 1);
      if output.Err? { return output; }
      return Ok("[" + output.value + "]");
    case Object(entries) =>
      var keys := NormalizeKeys(nfc, entries);
      if keys.Err? { return Err(keys.error); }
      var members := SortKnown(keys.value);
      var output := CanonicalizeMembers(nfc, v, members, depth + 1);
      if output.Err? { return output; }
      return Ok("{" + output.value + "}");
  }

  method CanonicalizeItems(nfc: Nfc, items: seq<Json>, depth: nat) returns (r: Result<string, JsonError>)
    ensures r == CanonicalItems(nfc, items, depth)
    decreases items, 0
  {
    hide CanonicalItems, Canonical, Resume;
    NothingLeft(nfc, Object([]), depth);
    ResumeStart(CanonicalItems(nfc, items, depth));
    assert items[0..] == items;
    var output := "";
    for i := 0 to |items|
      invariant i == 0 ==> output == ""
      invariant CanonicalItems(nfc, items, depth)
             == Resume(output, i > 0, i == |items| > 0, CanonicalItems(nfc, items[i..], depth))
    {
      FirstItem(nfc, items, i, depth);
      var child := CanonicalizeInner(nfc, items[i], depth);
      if child.Err? {
        ResumeFails(output, i > 0, child.error);
        return Err(child.error);
      }
      ghost var rest, before := CanonicalItems(nfc, items[i + 1..], depth), output;
      ResumeStep(output, i > 0, child.value, i + 1 == |items|, rest);
      assert CanonicalItems(nfc, items, depth) == Resume(output, i > 0, false, CanonicalItems(nfc, items[i..], depth));
      if i > 0 { output := output + ","; }
      output := output + child.value;
      assert output == if i > 0 then before + "," + child.value else child.value;
      assert CanonicalItems(nfc, items, depth) == Resume(output, true, i + 1 == |items|, rest);
    }
    ResumeEnds(output, |items| > 0, CanonicalItems(nfc, items[|items|..], depth));
    return Ok(output);
  }

  method NormalizeKeys(nfc: Nfc, entries: seq<Entry>) returns (r: Result<seq<Known>, JsonError>)
    ensures r == if KeysError(nfc, entries).Some? then Err(KeysError(nfc, entries).value) else Ok(Keys(nfc, entries))
  {
    var keys: seq<Known> := [];
    for i := 0 to |entries|
      invariant keys == Keys(nfc, entries[..i]) && KeysError(nfc, entries[..i]) == None
    {
      assert entries[..i + 1][..i] == entries[..i];
      var key := nfc(entries[i].key);
      if |entries[i].key| > MAX_JSON_LENGTH {
        EarlyKeyError(nfc, entries, i + 1);
        return Err(InvalidValue);
      }
      if HasKey(keys, key) {
        EarlyKeyError(nfc, entries, i + 1);
        return Err(NfcCollision);
      }
      keys := keys + [Known(key, i)];
    }
    assert entries[..|entries|] == entries;
    return Ok(keys);
  }

  method CanonicalizeMembers(nfc: Nfc, v: Json, members: seq<Known>, depth: nat) returns (r: Result<string, JsonError>)
    requires MembersOf(v, members)
    ensures r == CanonicalMembers(nfc, v, members, depth)
    decreases v, 0
  {
    hide CanonicalMembers, Canonical, Resume;
    NothingLeft(nfc, v, depth);
    ResumeStart(CanonicalMembers(nfc, v, members, depth));
    assert members[0..] == members;
    var output := "";
    for i := 0 to |members|
      invariant i == 0 ==> output == ""
      invariant CanonicalMembers(nfc, v, members, depth)
             == Resume(output, i > 0, i == |members| > 0, CanonicalMembers(nfc, v, members[i..], depth))
    {
      FirstMember(nfc, v, members, i, depth);
      var key := QuoteText(nfc, members[i].key);
      if key.Err? {
        ResumeFails(output, i > 0, key.error);
        return Err(key.error);
      }
      var child := CanonicalizeInner(nfc, v.entries[members[i].index].value, depth);
      if child.Err? {
        ResumeFails(output, i > 0, child.error);
        return Err(child.error);
      }
      ghost var rest, before := CanonicalMembers(nfc, v, members[i + 1..], depth), output;
      ghost var member := key.value + ":" + child.value;
      ResumeStep(output, i > 0, member, i + 1 == |members|, rest);
      assert CanonicalMembers(nfc, v, members, depth)
          == Resume(output, i > 0, false, CanonicalMembers(nfc, v, members[i..], depth));
      if i > 0 { output := output + ","; }
      output := output + key.value;
      output := output + ":";
      output := output + child.value;
      assert output == if i > 0 then before + "," + member else member;
      assert CanonicalMembers(nfc, v, members, depth) == Resume(output, true, i + 1 == |members|, rest);
    }
    ResumeEnds(output, |members| > 0, CanonicalMembers(nfc, v, members[|members|..], depth));
    return Ok(output);
  }

  /** An error among the first keys is the error of the whole object. */
  lemma {:induction false} EarlyKeyError(nfc: Nfc, entries: seq<Entry>, i: nat)
    requires i <= |entries| && KeysError(nfc, entries[..i]).Some?
    ensures KeysError(nfc, entries) == KeysError(nfc, entries[..i])
    decreases |entries| - i
  {
    if i < |entries| {
      assert entries[..i + 1][..i] == entries[..i];
      EarlyKeyError(nfc, entries, i + 1);
    } else {
      assert entries[..i] == entries;
    }
  }
}
