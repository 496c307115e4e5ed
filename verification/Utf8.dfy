/** UTF-8, and the text decoder that reads it: strict, and silent about one leading byte order mark. */
module Utf8 {
  import opened Wrappers
  import opened ProtocolTypes

  // ---------- Writing ----------

  function CharBytes(c: char): nat {
    if (c as int) < 0x80 then 1 else if (c as int) < 0x800 then 2 else if (c as int) < 0x10000 then 3 else 4
  }

  /** The length of a string in UTF-8. */
  function ByteLength(s: string): nat {
    if s == "" then 0 else CharBytes(s[0]) + ByteLength(s[1..])
  }

  function Trail(n: nat): Byte {
    0x80 + n % 64
  }

  function EncodeChar(c: char): (bytes: seq<Byte>)
    ensures |bytes| == CharBytes(c)
  {
    var n := c as int;
    if n < 0x80 then [n]
    else if n < 0x800 then [0xC0 + n / 64, Trail(n)]
    else if n < 0x10000 then [0xE0 + n / 64 / 64, Trail(n / 64), Trail(n)]
    else [0xF0 + n / 64 / 64 / 64, Trail(n / 64 / 64), Trail(n / 64), Trail(n)]
  }

  function EncodeText(s: string): (bytes: seq<Byte>)
    ensures |bytes| == ByteLength(s)
  {
    if s == "" then [] else EncodeChar(s[0]) + EncodeText(s[1..])
  }

  // ---------- Reading ----------

  /** Whether byte i is there and within bounds. */
  predicate Follows(bytes: seq<Byte>, i: nat, lower: Byte, upper: Byte) {
    i < |bytes| && lower <= bytes[i] <= upper
  }

  predicate Trails(bytes: seq<Byte>, i: nat) {
    Follows(bytes, i, 0x80, 0xBF)
  }

  /** Six more bits. */
  function Joined(high: nat, trail: Byte): (n: nat)
    requires 0x80 <= trail <= 0xBF
    ensures n / 64 == high && Trail(n) == trail
  {
    high * 64 + trail % 64
  }

  datatype Front = Front(c: char, length: nat)

  /** The first character, if the bytes start with a well-formed one: no overlong form, no surrogate, none too large. */
  function ReadChar(bytes: seq<Byte>): (r: Option<Front>)
    requires bytes != []
    ensures r.Some? ==> 0 < r.value.length <= |bytes|
  {
    var b: int := bytes[0];
    if b < 0x80 then Some(Front(b as char, 1))
    else if 0xC2 <= b <= 0xDF then
      if !Trails(bytes, 1) then None
      else Some(Front(Joined(b - 0xC0, bytes[1]) as char, 2))
    else if 0xE0 <= b <= 0xEF then
      if !Follows(bytes, 1, if b == 0xE0 then 0xA0 else 0x80, if b == 0xED then 0x9F else 0xBF) || !Trails(bytes, 2)
      then None
      else Some(Front(Joined(Joined(b - 0xE0, bytes[1]), bytes[2]) as char, 3))
    else if 0xF0 <= b <= 0xF4 then
      if !Follows(bytes, 1, if b == 0xF0 then 0x90 else 0x80, if b == 0xF4 then 0x8F else 0xBF) || !Trails(bytes, 2)
         || !Trails(bytes, 3)
      then None
      else Some(Front(Joined(Joined(Joined(b - 0xF0, bytes[1]), bytes[2]), bytes[3]) as char, 4))
    else None
  }

  function DecodeText(bytes: seq<Byte>): Option<string> {
    if bytes == [] then Some("")
    else match ReadChar(bytes)
      case None => None
      case Some(Front(c, length)) =>
        match DecodeText(bytes[length..])
        case None => None
        case Some(rest) => Some([c] + rest)
  }

  const MARK: seq<Byte> := [0xEF, 0xBB, 0xBF]
  const MARK_CHAR: char := '\U{FEFF}'

  /** TextDecoder in its fatal mode: one leading mark is dropped, whatever the text. */
  function TextOf(bytes: seq<Byte>): Option<string> {
    DecodeText(if MARK <= bytes then bytes[|MARK|..] else bytes)
  }

  // ---------- Reading undoes writing, and nothing else reads ----------

  lemma ReadsEncoded(c: char, rest: seq<Byte>)
    ensures ReadChar(EncodeChar(c) + rest) == Some(Front(c, CharBytes(c)))
  {
    var n := c as int;
    var bytes := EncodeChar(c) + rest;
    if 0x80 <= n < 0x800 {
      assert bytes[1] == Trail(n);
    } else if 0x800 <= n < 0x10000 {
      assert bytes[1] == Trail(n / 64) && bytes[2] == Trail(n);
    } else if 0x10000 <= n {
      assert bytes[1] == Trail(n / 64 / 64) && bytes[2] == Trail(n / 64) && bytes[3] == Trail(n);
    }
  }

  lemma ReadIsEncoded(bytes: seq<Byte>)
    requires bytes != [] && ReadChar(bytes).Some?
    ensures var front := ReadChar(bytes).value; bytes[..front.length] == EncodeChar(front.c)
  {
  }

  lemma {:induction false} EncodingIsDecoded(s: string)
    ensures DecodeText(EncodeText(s)) == Some(s)
  {
    hide ReadChar, EncodeChar;
    if s != "" {
      ReadsEncoded(s[0], EncodeText(s[1..]));
      assert EncodeText(s)[CharBytes(s[0])..] == EncodeText(s[1..]);
      EncodingIsDecoded(s[1..]);
      assert EncodeText(s) != [] && [s[0]] + s[1..] == s;
    }
  }

  lemma {:induction false} DecodedIsEncoding(bytes: seq<Byte>)
    requires DecodeText(bytes).Some?
    ensures EncodeText(DecodeText(bytes).value) == bytes
    decreases |bytes|
  {
    hide ReadChar, EncodeChar;
    if bytes != [] {
      var front := ReadChar(bytes).value;
      ReadIsEncoded(bytes);
      DecodedIsEncoding(bytes[front.length..]);
      assert DecodeText(bytes).value[1..] == DecodeText(bytes[front.length..]).value;
      assert bytes == bytes[..front.length] + bytes[front.length..];
    }
  }

  /** The bytes that are read as a text are its encoding and nothing else. */
  lemma DecodesEncodings(bytes: seq<Byte>, s: string)
    ensures DecodeText(bytes) == Some(s) <==> bytes == EncodeText(s)
  {
    EncodingIsDecoded(s);
    if DecodeText(bytes) == Some(s) {
      DecodedIsEncoding(bytes);
    }
  }

  /** An encoding starts with the bytes of a mark exactly when its text starts with that character. */
  lemma MarkedText(s: string)
    ensures MARK <= EncodeText(s) <==> s != "" && s[0] == MARK_CHAR
  {
    assert EncodeChar(MARK_CHAR) == MARK;
    if s != "" {
      ReadsEncoded(s[0], EncodeText(s[1..]));
      if MARK <= EncodeText(s) {
        assert EncodeText(s) == EncodeChar(MARK_CHAR) + EncodeText(s)[3..];
        ReadsEncoded(MARK_CHAR, EncodeText(s)[3..]);
      }
    }
  }

  function Spelled(marked: bool, s: string): seq<Byte> {
    (if marked then MARK else []) + EncodeText(s)
  }

  /** A text is read off two spellings: its encoding after a mark, and its bare encoding, unless that starts like one. */
  lemma TextExactly(bytes: seq<Byte>, s: string)
    ensures TextOf(bytes) == Some(s)
       <==> bytes == Spelled(true, s) || (bytes == Spelled(false, s) && (s == "" || s[0] != MARK_CHAR))
  {
    MarkedText(s);
    if MARK <= bytes {
      DecodesEncodings(bytes[3..], s);
      assert bytes == MARK + bytes[3..];
      assert Spelled(true, s)[3..] == EncodeText(s);
    } else {
      DecodesEncodings(bytes, s);
      assert Spelled(true, s)[..3] == MARK;
    }
  }
}
