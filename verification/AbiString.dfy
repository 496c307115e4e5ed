/** ABI encoding of the release event's data at byte level: the decoder's walk over the four strings accepts exactly
    the canonical encodings, up to a byte order mark before each text. */
module AbiString {
  import opened Wrappers
  import opened ProtocolTypes
  import opened Utf8

  const WORD: nat := 32
  const HEAD_BYTES: nat := 384
  const STRINGS: nat := 4
  const MAX_SAFE: nat := 0x1F_FFFF_FFFF_FFFF

  // ---------- Words ----------

  function Pow256(n: nat): (p: nat)
    ensures p > 0
  {
    if n == 0 then 1 else 256 * Pow256(n - 1)
  }

  function BigEndian(s: seq<Byte>): nat {
    if s == [] then 0 else 256 * BigEndian(s[..|s| - 1]) + s[|s| - 1]
  }

  function ToBytes(v: nat, n: nat): (s: seq<Byte>)
    ensures |s| == n
  {
    if n == 0 then [] else ToBytes(v / 256, n - 1) + [v % 256]
  }

  lemma {:induction false} ReadsBack(v: nat, n: nat)
    requires v < Pow256(n)
    ensures BigEndian(ToBytes(v, n)) == v
  {
    if n > 0 {
      ReadsBack(v / 256, n - 1);
      assert ToBytes(v, n)[..n - 1] == ToBytes(v / 256, n - 1);
    }
  }

  /** A word is determined by its value. */
  lemma {:induction false} WritesBack(s: seq<Byte>)
    ensures ToBytes(BigEndian(s), |s|) == s
  {
    if s != [] {
      var front := s[..|s| - 1];
      WritesBack(front);
      assert BigEndian(s) / 256 == BigEndian(front) && BigEndian(s) % 256 == s[|s| - 1];
      assert s == front + [s[|s| - 1]];
    }
  }

  function Slice(data: seq<Byte>, start: nat, length: nat): (s: seq<Byte>)
    requires start + length <= |data|
    ensures |s| == length
  {
    data[start..start + length]
  }

  lemma SliceExtends(data: seq<Byte>, start: nat, length: nat)
    requires start + length <= |data|
    ensures data[..start + length] == data[..start] + Slice(data, start, length)
  {
  }

  function WordAt(data: seq<Byte>, start: nat): nat
    requires start + WORD <= |data|
  {
    BigEndian(Slice(data, start, WORD))
  }

  function RoundUp(n: nat): (m: nat)
    ensures n <= m < n + WORD && m % WORD == 0
  {
    (n + WORD - 1) / WORD * WORD
  }

  predicate Zeros(s: seq<Byte>) {
    forall i :: 0 <= i < |s| ==> s[i] == 0
  }

  // ---------- Decoding ----------

  /** A decoded string's bytes and where its encoding ends. */
  datatype Piece = Piece(payload: seq<Byte>, end: nat)

  function DynamicString(data: seq<Byte>, offset: nat, headBytes: nat, expectedStart: nat): Option<Piece> {
    if offset > MAX_SAFE || offset != expectedStart || offset < headBytes || offset % WORD != 0
       || offset + WORD > |data| then None
    else
      var length := WordAt(data, offset);
      var payloadStart := offset + WORD;
      if length > MAX_SAFE || payloadStart + RoundUp(length) > |data| then None
      else if !Zeros(Slice(data, payloadStart + length, RoundUp(length) - length)) then None
      else Some(Piece(Slice(data, payloadStart, length), payloadStart + RoundUp(length)))
  }

  datatype Tail = Tail(strings: seq<seq<Byte>>, end: nat)

  /** The first strings of the walk. */
  function WalkStrings(data: seq<Byte>, count: nat): Option<Tail>
    requires count <= STRINGS && HEAD_BYTES <= |data|
  {
    if count == 0 then Some(Tail([], HEAD_BYTES))
    else match WalkStrings(data, count - 1)
      case None => None
      case Some(Tail(strings, end)) =>
        match DynamicString(data, WordAt(data, WORD * (count - 1)), HEAD_BYTES, end)
        case None => None
        case Some(Piece(payload, next)) => Some(Tail(strings + [payload], next))
  }

  /** The four strings and the eight words beside them. */
  datatype Payload = Payload(strings: seq<seq<Byte>>, statics: seq<Byte>)

  function Decoded(data: seq<Byte>): (p: Option<Payload>)
    ensures p.Some? ==> |p.value.statics| == HEAD_BYTES - WORD * STRINGS
  {
    if |data| < HEAD_BYTES || |data| % WORD != 0 then None
    else match WalkStrings(data, STRINGS)
      case None => None
      case Some(Tail(strings, end)) =>
        if end != |data| then None
        else Some(Payload(strings, Slice(data, WORD * STRINGS, HEAD_BYTES - WORD * STRINGS)))
  }

  function Texts(strings: seq<seq<Byte>>): Option<seq<string>> {
    if strings == [] then Some([])
    else
      var n := |strings| - 1;
      var before, last := Texts(strings[..n]), TextOf(strings[n]);
      if before == None || last == None then None else Some(before.value + [last.value])
  }

  /** The four texts and the eight words beside them. */
  datatype Declaration = Declaration(texts: seq<string>, statics: seq<Byte>)

  function Declared(data: seq<Byte>): (d: Option<Declaration>)
    ensures d.Some? ==> |d.value.statics| == HEAD_BYTES - WORD * STRINGS
  {
    match Decoded(data)
    case None => None
    case Some(Payload(strings, statics)) =>
      if Texts(strings) == None then None else Some(Declaration(Texts(strings).value, statics))
  }

  /** The decoder as it runs. */
  method DecodeReleaseDeclared(data: seq<Byte>) returns (r: Option<Declaration>)
    ensures r == Declared(data)
  {
    hide DynamicString, TextOf, WordAt, Texts;
    if |data| < HEAD_BYTES || |data| % WORD != 0 { return None; }
    ghost var read: seq<seq<Byte>> := [];
    var texts: seq<string> := [];
    NoTexts();
    var tailEnd := HEAD_BYTES;
    for index := 0 to STRINGS
      invariant WalkStrings(data, index) == Some(Tail(read, tailEnd)) && Texts(read) == Some(texts)
    {
      var decoded := DynamicString(data, WordAt(data, WORD * index), HEAD_BYTES, tailEnd);
      if decoded == None {
        WalkStops(data, index + 1);
        return None;
      }
      tailEnd := decoded.value.end;
      var text := TextOf(decoded.value.payload);
      TextsAppend(read, decoded.value.payload);
      read := read + [decoded.value.payload];
      if text == None {
        TextsStop(data, index + 1);
        return None;
      }
      texts := texts + [text.value];
    }
    if tailEnd != |data| { return None; }
    return Some(Declaration(texts, Slice(data, WORD * STRINGS, HEAD_BYTES - WORD * STRINGS)));
  }

  lemma NoTexts()
    ensures Texts([]) == Some([])
  {
  }

  lemma TextsAppend(strings: seq<seq<Byte>>, last: seq<Byte>)
    ensures Texts(strings + [last])
         == if Texts(strings) == None || TextOf(last) == None then None
            else Some(Texts(strings).value + [TextOf(last).value])
  {
    hide TextOf;
    assert (strings + [last])[..|strings|] == strings;
  }

  /** A text that cannot be read early in the walk leaves the whole unread. */
  lemma {:induction false} TextsStop(data: seq<Byte>, count: nat)
    requires count <= STRINGS && HEAD_BYTES <= |data| && WalkStrings(data, count).Some?
    requires Texts(WalkStrings(data, count).value.strings) == None
    ensures WalkStrings(data, STRINGS).Some? ==> Texts(WalkStrings(data, STRINGS).value.strings) == None
    decreases STRINGS - count
  {
    hide DynamicString, TextOf, WordAt;
    if count < STRINGS && WalkStrings(data, count + 1).Some? {
      var next := WalkStrings(data, count + 1).value.strings;
      assert next[..|next| - 1] == WalkStrings(data, count).value.strings;
      TextsStop(data, count + 1);
    } else if count < STRINGS {
      WalkStops(data, count + 1);
    }
  }

  lemma {:induction false} WalkStops(data: seq<Byte>, count: nat)
    requires count <= STRINGS && HEAD_BYTES <= |data| && WalkStrings(data, count) == None
    ensures WalkStrings(data, STRINGS) == None
    decreases STRINGS - count
  {
    if count < STRINGS {
      WalkStops(data, count + 1);
    }
  }

  // ---------- Encoding ----------

  function EncodedString(payload: seq<Byte>): (s: seq<Byte>)
    ensures |s| == WORD + RoundUp(|payload|)
  {
    ToBytes(|payload|, WORD) + payload + seq(RoundUp(|payload|) - |payload|, _ => 0)
  }

  function EncodedTail(strings: seq<seq<Byte>>): seq<Byte> {
    if strings == [] then []
    else EncodedTail(strings[..|strings| - 1]) + EncodedString(strings[|strings| - 1])
  }

  /** Where the encoding of string i starts. */
  function Offset(strings: seq<seq<Byte>>, i: nat): nat
    requires i <= |strings|
  {
    HEAD_BYTES + |EncodedTail(strings[..i])|
  }

  function EncodedOffsets(strings: seq<seq<Byte>>, count: nat): (s: seq<Byte>)
    requires count <= |strings|
    ensures |s| == WORD * count
  {
    if count == 0 then [] else EncodedOffsets(strings, count - 1) + ToBytes(Offset(strings, count - 1), WORD)
  }

  function Encoded(p: Payload): seq<Byte> {
    EncodedOffsets(p.strings, |p.strings|) + p.statics + EncodedTail(p.strings)
  }

  /** Four strings and eight words, with every length and offset a safe number. */
  predicate Encodable(p: Payload) {
    && |p.strings| == STRINGS && |p.statics| == HEAD_BYTES - WORD * STRINGS
    && |Encoded(p)| <= MAX_SAFE
  }

  // ---------- Accepted means canonical ----------

  lemma ZerosAre(s: seq<Byte>)
    requires Zeros(s)
    ensures s == seq(|s|, _ => 0)
  {
  }

  lemma ThreeSlices(data: seq<Byte>, start: nat, a: nat, b: nat, c: nat)
    requires start + a + b + c <= |data|
    ensures data[start..start + a + b + c]
         == Slice(data, start, a) + Slice(data, start + a, b) + Slice(data, start + a + b, c)
  {
  }

  /** An accepted piece is the canonical encoding of what it decodes to. */
  lemma PieceIsCanonical(data: seq<Byte>, offset: nat, expectedStart: nat)
    requires DynamicString(data, offset, HEAD_BYTES, expectedStart).Some?
    ensures var piece := DynamicString(data, offset, HEAD_BYTES, expectedStart).value;
            && offset == expectedStart <= piece.end <= |data|
            && data[expectedStart..piece.end] == EncodedString(piece.payload)
  {
    hide BigEndian, ToBytes, Slice, RoundUp, Zeros;
    var n := WordAt(data, offset);
    WritesBack(Slice(data, offset, WORD));
    ZerosAre(Slice(data, offset + WORD + n, RoundUp(n) - n));
    ThreeSlices(data, offset, WORD, n, RoundUp(n) - n);
  }

  /** One step of the walk, taken apart. */
  lemma WalkUnfolds(data: seq<Byte>, count: nat)
    requires 0 < count <= STRINGS && HEAD_BYTES <= |data| && WalkStrings(data, count).Some?
    ensures WalkStrings(data, count - 1).Some?
    ensures var before := WalkStrings(data, count - 1).value;
            var piece := DynamicString(data, WordAt(data, WORD * (count - 1)), HEAD_BYTES, before.end);
            && piece.Some?
            && WalkStrings(data, count).value == Tail(before.strings + [piece.value.payload], piece.value.end)
  {
    hide DynamicString, WordAt;
  }

  lemma TailExtends(data: seq<Byte>, strings: seq<seq<Byte>>, payload: seq<Byte>, from: nat, end: nat)
    requires HEAD_BYTES <= from <= end <= |data|
    requires data[HEAD_BYTES..from] == EncodedTail(strings) && data[from..end] == EncodedString(payload)
    ensures data[HEAD_BYTES..end] == EncodedTail(strings + [payload])
  {
    hide EncodedString;
    assert (strings + [payload])[..|strings|] == strings;
    assert data[HEAD_BYTES..end] == data[HEAD_BYTES..from] + data[from..end];
  }

  lemma OffsetsAppend(strings: seq<seq<Byte>>, payload: seq<Byte>)
    ensures var n := |strings|;
            EncodedOffsets(strings + [payload], n + 1) == EncodedOffsets(strings, n) + ToBytes(Offset(strings, n), WORD)
  {
    hide ToBytes, EncodedTail;
    var n, all := |strings|, strings + [payload];
    assert all[..n] == strings[..n];
    OffsetsPrefix(strings, all, n);
  }

  lemma OffsetsExtend(data: seq<Byte>, strings: seq<seq<Byte>>, payload: seq<Byte>)
    requires WORD * |strings| + WORD <= |data|
    requires data[..WORD * |strings|] == EncodedOffsets(strings, |strings|)
    requires WordAt(data, WORD * |strings|) == Offset(strings, |strings|)
    ensures data[..WORD * |strings| + WORD] == EncodedOffsets(strings + [payload], |strings| + 1)
  {
    hide BigEndian, ToBytes, EncodedTail, EncodedOffsets, Offset, Slice;
    var n := |strings|;
    OffsetsAppend(strings, payload);
    WritesBack(Slice(data, WORD * n, WORD));
    SliceExtends(data, WORD * n, WORD);
  }

  /** What a walk of some strings has read: their encodings, and the offsets that announce them. */
  predicate WalkedOver(data: seq<Byte>, count: nat, tail: Tail) {
    && |tail.strings| == count && WORD * count <= HEAD_BYTES <= tail.end <= |data|
    && data[HEAD_BYTES..tail.end] == EncodedTail(tail.strings)
    && data[..WORD * count] == EncodedOffsets(tail.strings, count)
  }

  lemma WalkedFurther(data: seq<Byte>, before: Tail, piece: Piece)
    requires |before.strings| < STRINGS && WalkedOver(data, |before.strings|, before)
    requires WordAt(data, WORD * |before.strings|) == before.end <= piece.end <= |data|
    requires data[before.end..piece.end] == EncodedString(piece.payload)
    ensures WalkedOver(data, |before.strings| + 1, Tail(before.strings + [piece.payload], piece.end))
  {
    hide EncodedString, WordAt, EncodedTail, EncodedOffsets;
    TailExtends(data, before.strings, piece.payload, before.end, piece.end);
    assert before.strings[..|before.strings|] == before.strings;
    OffsetsExtend(data, before.strings, piece.payload);
  }

  lemma {:induction false} WalkIsCanonical(data: seq<Byte>, count: nat)
    requires count <= STRINGS && HEAD_BYTES <= |data| && WalkStrings(data, count).Some?
    ensures WalkedOver(data, count, WalkStrings(data, count).value)
  {
    if count > 0 {
      hide DynamicString, EncodedString, WordAt, EncodedTail, EncodedOffsets, WalkStrings;
      WalkUnfolds(data, count);
      WalkIsCanonical(data, count - 1);
      var before := WalkStrings(data, count - 1).value;
      var offset := WordAt(data, WORD * (count - 1));
      PieceIsCanonical(data, offset, before.end);
      WalkedFurther(data, before, DynamicString(data, offset, HEAD_BYTES, before.end).value);
    }
  }

  /** Offsets depend only on the strings before. */
  lemma {:induction false} OffsetsPrefix(a: seq<seq<Byte>>, b: seq<seq<Byte>>, count: nat)
    requires count <= |a| && count <= |b| && a[..count] == b[..count]
    ensures EncodedOffsets(a, count) == EncodedOffsets(b, count)
  {
    if count > 0 {
      assert a[..count][..count - 1] == a[..count - 1] && b[..count][..count - 1] == b[..count - 1];
      OffsetsPrefix(a, b, count - 1);
    }
  }

  /** Whatever data the decoder accepts is the encoding of its result. */
  lemma AcceptedIsCanonical(data: seq<Byte>)
    requires Decoded(data).Some?
    ensures Encoded(Decoded(data).value) == data && |Decoded(data).value.strings| == STRINGS
  {
    hide WalkStrings, EncodedTail, EncodedOffsets;
    WalkIsCanonical(data, STRINGS);
    var p := Decoded(data).value;
    assert data == data[..WORD * STRINGS] + p.statics + data[HEAD_BYTES..|data|];
  }

  // ---------- Canonical is accepted ----------

  lemma {:induction false} TailLengths(strings: seq<seq<Byte>>, i: nat)
    requires i <= |strings|
    ensures EncodedTail(strings[..i]) <= EncodedTail(strings)
    ensures |EncodedTail(strings)| % WORD == 0
  {
    if i < |strings| {
      var front := strings[..|strings| - 1];
      TailLengths(front, i);
      assert front[..i] == strings[..i];
      SumOfWords(|EncodedTail(front)|, |EncodedString(strings[|strings| - 1])|);
    } else if strings != [] {
      var front := strings[..|strings| - 1];
      assert strings[..i] == strings;
      TailLengths(front, |front|);
      SumOfWords(|EncodedTail(front)|, |EncodedString(strings[|strings| - 1])|);
    }
  }

  lemma SumOfWords(m: nat, n: nat)
    requires m % WORD == 0 && (n - WORD) % WORD == 0 && n >= WORD
    ensures (m + n) % WORD == 0
  {
  }

  lemma SliceOfSlice(data: seq<Byte>, start: nat, end: nat, from: nat, length: nat)
    requires start <= end <= |data| && from + length <= end - start
    ensures Slice(data, start + from, length) == data[start..end][from..from + length]
  {
    var inner, slice := data[start..end], Slice(data, start + from, length);
    forall k | 0 <= k < length
      ensures inner[from..from + length][k] == slice[k]
    {
      assert slice[k] == data[start + from + k] == inner[from + k];
    }
  }

  lemma EncodedParts(payload: seq<Byte>)
    ensures var encoded, n := EncodedString(payload), |payload|;
            && encoded[..WORD] == ToBytes(n, WORD) && encoded[WORD..WORD + n] == payload
            && Zeros(encoded[WORD + n..])
  {
    hide ToBytes, RoundUp;
  }

  /** What a reader sees where a length, a payload and zeros stand. */
  lemma PieceRead(data: seq<Byte>, start: nat, n: nat)
    requires start % WORD == 0 && HEAD_BYTES <= start && start + WORD + RoundUp(n) <= |data| <= MAX_SAFE
    requires WordAt(data, start) == n && Zeros(Slice(data, start + WORD + n, RoundUp(n) - n))
    ensures DynamicString(data, start, HEAD_BYTES, start)
         == Some(Piece(Slice(data, start + WORD, n), start + WORD + RoundUp(n)))
  {
    hide WordAt, Slice, RoundUp, Zeros;
  }

  /** Reading a string where its encoding stands gives it back. */
  lemma PieceDecodes(data: seq<Byte>, start: nat, payload: seq<Byte>)
    requires start % WORD == 0 && HEAD_BYTES <= start && start + |EncodedString(payload)| <= |data| <= MAX_SAFE
    requires data[start..start + |EncodedString(payload)|] == EncodedString(payload)
    ensures DynamicString(data, start, HEAD_BYTES, start) == Some(Piece(payload, start + |EncodedString(payload)|))
  {
    hide Slice, EncodedString, RoundUp, BigEndian, ToBytes, Zeros, DynamicString;
    var encoded, n := EncodedString(payload), |payload|;
    var end := start + |encoded|;
    EncodedParts(payload);
    SliceOfSlice(data, start, end, 0, WORD);
    LengthFits(n);
    ReadsBack(n, WORD);
    SliceOfSlice(data, start, end, WORD, n);
    SliceOfSlice(data, start, end, WORD + n, RoundUp(n) - n);
    assert encoded[WORD + n..] == encoded[WORD + n..WORD + n + (RoundUp(n) - n)];
    PieceRead(data, start, n);
  }

  lemma LengthFits(n: nat)
    requires n <= MAX_SAFE
    ensures n < Pow256(WORD)
  {
    assert Pow256(7) == 0x100_0000_0000_0000 by {
      assert Pow256(3) == 0x100_0000;
      assert Pow256(5) == 0x100_0000_0000;
    }
    Pow256Grows(7, WORD);
  }

  lemma {:induction false} Pow256Grows(m: nat, n: nat)
    requires m <= n
    ensures Pow256(m) <= Pow256(n)
  {
    if m < n {
      Pow256Grows(m, n - 1);
    }
  }

  lemma {:induction false} OffsetWord(strings: seq<seq<Byte>>, count: nat, i: nat)
    requires i < count <= |strings|
    ensures EncodedOffsets(strings, count)[WORD * i..WORD * i + WORD] == ToBytes(Offset(strings, i), WORD)
  {
    if i < count - 1 {
      OffsetWord(strings, count - 1, i);
    }
  }

  /** One step of the walk, put together. */
  lemma WalkFolds(data: seq<Byte>, count: nat)
    requires 0 < count <= STRINGS && HEAD_BYTES <= |data| && WalkStrings(data, count - 1).Some?
    ensures var before := WalkStrings(data, count - 1).value;
            var piece := DynamicString(data, WordAt(data, WORD * (count - 1)), HEAD_BYTES, before.end);
            piece.Some? ==>
              WalkStrings(data, count) == Some(Tail(before.strings + [piece.value.payload], piece.value.end))
  {
    hide DynamicString, WordAt;
  }

  lemma EncodedIsLong(p: Payload)
    requires Encodable(p)
    ensures HEAD_BYTES <= |Encoded(p)| <= MAX_SAFE
  {
    hide EncodedTail;
  }

  lemma WalkDecodesNext(p: Payload, i: nat)
    requires Encodable(p) && i < STRINGS && HEAD_BYTES <= |Encoded(p)| <= MAX_SAFE
    requires WalkStrings(Encoded(p), i) == Some(Tail(p.strings[..i], Offset(p.strings, i)))
    ensures WalkStrings(Encoded(p), i + 1) == Some(Tail(p.strings[..i + 1], Offset(p.strings, i + 1)))
  {
    hide Encoded, EncodedString, DynamicString, WordAt, EncodedTail, WalkStrings, Offset;
    EncodedPlaces(p, i);
    OffsetSteps(p.strings, i);
    PieceDecodes(Encoded(p), Offset(p.strings, i), p.strings[i]);
    WalkFolds(Encoded(p), i + 1);
    assert p.strings[..i + 1] == p.strings[..i] + [p.strings[i]];
  }

  lemma WalkStarts(data: seq<Byte>, strings: seq<seq<Byte>>)
    requires HEAD_BYTES <= |data|
    ensures WalkStrings(data, 0) == Some(Tail(strings[..0], Offset(strings, 0)))
  {
    hide DynamicString, WordAt, EncodedString;
  }

  lemma {:induction false} WalkDecodes(p: Payload, count: nat)
    requires Encodable(p) && count <= STRINGS
    ensures HEAD_BYTES <= |Encoded(p)| <= MAX_SAFE
    ensures WalkStrings(Encoded(p), count) == Some(Tail(p.strings[..count], Offset(p.strings, count)))
  {
    hide Encoded, WalkStrings, Offset;
    EncodedIsLong(p);
    if count > 0 {
      WalkDecodes(p, count - 1);
      WalkDecodesNext(p, count - 1);
    } else {
      WalkStarts(Encoded(p), p.strings);
    }
  }

  /** Where the next string starts. */
  lemma OffsetSteps(strings: seq<seq<Byte>>, i: nat)
    requires i < |strings|
    ensures EncodedTail(strings[..i + 1]) == EncodedTail(strings[..i]) + EncodedString(strings[i])
    ensures Offset(strings, i + 1) == Offset(strings, i) + |EncodedString(strings[i])|
  {
    hide EncodedString;
    assert strings[..i + 1][..i] == strings[..i];
  }

  /** Where offset i stands in an encoding, and that it reads back. */
  lemma OffsetReads(p: Payload, i: nat)
    requires Encodable(p) && i < STRINGS && Offset(p.strings, i) <= MAX_SAFE
    ensures HEAD_BYTES <= |Encoded(p)| && WordAt(Encoded(p), WORD * i) == Offset(p.strings, i)
  {
    hide EncodedTail, ToBytes, BigEndian, Offset, EncodedOffsets;
    var offsets := EncodedOffsets(p.strings, STRINGS);
    OffsetWord(p.strings, STRINGS, i);
    assert Slice(Encoded(p), WORD * i, WORD) == offsets[WORD * i..WORD * i + WORD];
    LengthFits(Offset(p.strings, i));
    ReadsBack(Offset(p.strings, i), WORD);
  }

  lemma PrefixSlice(data: seq<Byte>, head: seq<Byte>, tail: seq<Byte>, before: seq<Byte>, piece: seq<Byte>)
    requires data == head + tail && before + piece <= tail
    ensures data[|head| + |before|..|head| + |before| + |piece|] == piece
  {
    assert tail[|before|..|before| + |piece|] == (before + piece)[|before|..|before| + |piece|];
    assert data[|head|..] == tail;
    assert data[|head| + |before|..|head| + |before| + |piece|] == tail[|before|..|before| + |piece|];
  }

  /** Where offset i and string i stand in an encoding. */
  lemma EncodedPlaces(p: Payload, i: nat)
    requires Encodable(p) && i < STRINGS
    ensures HEAD_BYTES <= |Encoded(p)|
    ensures WordAt(Encoded(p), WORD * i) == Offset(p.strings, i)
    ensures var start, encoded := Offset(p.strings, i), EncodedString(p.strings[i]);
            && HEAD_BYTES <= start && start % WORD == 0 && start + |encoded| <= |Encoded(p)|
            && Encoded(p)[start..start + |encoded|] == encoded
  {
    hide EncodedString, EncodedTail, EncodedOffsets, WordAt;
    var tail, before := EncodedTail(p.strings), EncodedTail(p.strings[..i]);
    TailLengths(p.strings, i + 1);
    TailLengths(p.strings[..i], i);
    OffsetSteps(p.strings, i);
    var head := EncodedOffsets(p.strings, STRINGS) + p.statics;
    PrefixSlice(Encoded(p), head, tail, before, EncodedString(p.strings[i]));
    OffsetReads(p, i);
  }

  lemma EncodedShape(p: Payload)
    requires Encodable(p)
    ensures |Encoded(p)| == Offset(p.strings, STRINGS) && |Encoded(p)| % WORD == 0
    ensures Slice(Encoded(p), WORD * STRINGS, HEAD_BYTES - WORD * STRINGS) == p.statics
  {
    hide EncodedTail, EncodedOffsets;
    TailLengths(p.strings, STRINGS);
    assert p.strings[..STRINGS] == p.strings;
  }

  /** The decoder undoes the encoder. */
  lemma DecodesEncoded(p: Payload)
    requires Encodable(p)
    ensures Decoded(Encoded(p)) == Some(p)
  {
    hide WalkStrings, Encoded, Offset, Slice;
    WalkDecodes(p, STRINGS);
    EncodedShape(p);
    assert p.strings[..STRINGS] == p.strings;
  }

  /** The accepted data are the encodings and nothing else. */
  lemma AcceptsExactlyEncodings(data: seq<Byte>)
    requires |data| <= MAX_SAFE
    ensures Decoded(data).Some? <==> exists p :: Encodable(p) && Encoded(p) == data
  {
    hide WalkStrings, Encoded, Slice;
    if Decoded(data).Some? {
      AcceptedIsCanonical(data);
      var p := Decoded(data).value;
      assert Encodable(p) && Encoded(p) == data;
    }
    forall p | Encodable(p) && Encoded(p) == data
      ensures Decoded(data).Some?
    {
      DecodesEncoded(p);
    }
  }

  // ---------- Texts ----------

  /** Each text's bytes, after a byte order mark where there is one. */
  function Spellings(texts: seq<string>, marks: seq<bool>): (strings: seq<seq<Byte>>)
    requires |marks| == |texts|
    ensures |strings| == |texts| && forall i :: 0 <= i < |texts| ==> strings[i] == Spelled(marks[i], texts[i])
  {
    if texts == [] then []
    else
      var n := |texts| - 1;
      Spellings(texts[..n], marks[..n]) + [Spelled(marks[n], texts[n])]
  }

  /** A text that starts with the mark's own character is only read after a mark. */
  predicate MarksSuffice(texts: seq<string>, marks: seq<bool>) {
    && |marks| == |texts|
    && forall i :: 0 <= i < |texts| && texts[i] != "" && texts[i][0] == MARK_CHAR ==> marks[i]
  }

  lemma {:induction false} TextsAre(strings: seq<seq<Byte>>, texts: seq<string>)
    ensures Texts(strings) == Some(texts)
       <==> |texts| == |strings| && forall i :: 0 <= i < |texts| ==> TextOf(strings[i]) == Some(texts[i])
  {
    hide TextOf;
    if strings != [] {
      var n := |strings| - 1;
      if |texts| == n + 1 {
        TextsAre(strings[..n], texts[..n]);
        assert texts == texts[..n] + [texts[n]];
        assert forall i :: 0 <= i < n ==> strings[..n][i] == strings[i] && texts[..n][i] == texts[i];
      } else if Texts(strings[..n]).Some? {
        TextsAre(strings[..n], Texts(strings[..n]).value);
      }
    }
  }

  lemma SpellingsAreRead(texts: seq<string>, marks: seq<bool>)
    requires MarksSuffice(texts, marks)
    ensures Texts(Spellings(texts, marks)) == Some(texts)
  {
    hide Spelled, TextOf;
    var strings := Spellings(texts, marks);
    TextsAre(strings, texts);
    forall i | 0 <= i < |texts|
      ensures TextOf(strings[i]) == Some(texts[i])
    {
      TextExactly(strings[i], texts[i]);
    }
  }

  /** The marks that stand before the texts of some strings. */
  function MarksOf(strings: seq<seq<Byte>>): (marks: seq<bool>)
    ensures |marks| == |strings|
  {
    seq(|strings|, i requires 0 <= i < |strings| => MARK <= strings[i])
  }

  lemma ReadStringsAreSpelled(strings: seq<seq<Byte>>)
    requires Texts(strings).Some?
    ensures MarksSuffice(Texts(strings).value, MarksOf(strings))
    ensures strings == Spellings(Texts(strings).value, MarksOf(strings))
  {
    hide Texts, TextOf;
    var texts, marks := Texts(strings).value, MarksOf(strings);
    TextsAre(strings, texts);
    forall i | 0 <= i < |texts|
      ensures strings[i] == Spelled(marks[i], texts[i])
      ensures texts[i] != "" && texts[i][0] == MARK_CHAR ==> marks[i]
    {
      SpelledAsRead(strings[i], texts[i]);
    }
  }

  lemma SpelledAsRead(bytes: seq<Byte>, text: string)
    requires TextOf(bytes) == Some(text)
    ensures bytes == Spelled(MARK <= bytes, text)
    ensures text != "" && text[0] == MARK_CHAR ==> MARK <= bytes
  {
    hide TextOf, EncodeText;
    TextExactly(bytes, text);
    MarkedText(text);
    assert Spelled(true, text)[..|MARK|] == MARK;
  }

  /** The data read as four texts and eight words are their canonical encodings, each text with a mark before it or
      none, and nothing else. */
  lemma DeclaredExactly(data: seq<Byte>, d: Declaration)
    requires |data| <= MAX_SAFE
    ensures Declared(data) == Some(d)
       <==> exists marks :: MarksSuffice(d.texts, marks)
              && Encodable(Payload(Spellings(d.texts, marks), d.statics))
              && Encoded(Payload(Spellings(d.texts, marks), d.statics)) == data
  {
    hide Decoded, Encoded, Texts, Spellings;
    if Declared(data) == Some(d) {
      AcceptedIsCanonical(data);
      ReadStringsAreSpelled(Decoded(data).value.strings);
      var p, marks := Decoded(data).value, MarksOf(Decoded(data).value.strings);
      assert p == Payload(Spellings(d.texts, marks), d.statics);
    }
    forall marks | MarksSuffice(d.texts, marks) && Encodable(Payload(Spellings(d.texts, marks), d.statics))
                   && Encoded(Payload(Spellings(d.texts, marks), d.statics)) == data
      ensures Declared(data) == Some(d)
    {
      DecodesEncoded(Payload(Spellings(d.texts, marks), d.statics));
      SpellingsAreRead(d.texts, marks);
    }
  }
}
