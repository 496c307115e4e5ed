/** JSON without numbers as text: one way to print a value, and a parser that undoes it. Strings are sequences of
    Unicode scalar values. */
module JsonText {
  import opened Wrappers

  datatype Json =
    | Null
    | Bool(value: bool)
    | Number
    | Text(text: string)
    | Array(items: seq<Json>)
    | Object(entries: seq<Entry>)

  datatype Entry = Entry(key: string, value: Json)

  /** An array around an array, and so on, n times. */
  function Nested(n: nat): Json {
    if n == 0 then Null else Array([Nested(n - 1)])
  }

  // ---------- Strings ----------

  const HEX: string := "0123456789abcdef"

  function HexDigit(n: nat): char
    requires n < 16
  {
    HEX[n]
  }

  function Escape(c: char): (s: string)
    ensures |s| >= 1
  {
    if c == '"' then "\\\""
    else if c == '\\' then "\\\\"
    else if c as int == 8 then "\\b"
    else if c == '\t' then "\\t"
    else if c == '\n' then "\\n"
    else if c as int == 12 then "\\f"
    else if c == '\r' then "\\r"
    else if c as int < 32 then ['\\', 'u', '0', '0', HexDigit(c as int / 16), HexDigit(c as int % 16)]
    else [c]
  }

  function EscapeAll(s: string): string {
    if s == "" then "" else Escape(s[0]) + EscapeAll(s[1..])
  }

  function Quoted(s: string): string {
    "\"" + EscapeAll(s) + "\""
  }

  /** The value of a hexadecimal digit in either case. */
  function HexValue(c: char): Option<nat> {
    if '0' <= c <= '9' then Some(c as int - '0' as int)
    else if 'a' <= c <= 'f' then Some(c as int - 'a' as int + 10)
    else if 'A' <= c <= 'F' then Some(c as int - 'A' as int + 10)
    else None
  }

  /** The value of four hexadecimal digits from position i on. */
  function HexQuad(s: string, i: nat): (n: Option<nat>)
    ensures n.Some? ==> n.value < 0x10000
  {
    if i + 4 > |s| then None
    else
      var a, b, c, d := HexValue(s[i]), HexValue(s[i + 1]), HexValue(s[i + 2]), HexValue(s[i + 3]);
      if a == None || b == None || c == None || d == None then None
      else Some(((a.value * 16 + b.value) * 16 + c.value) * 16 + d.value)
  }

  datatype Scan<T> = Scan(value: T, rest: string)

  /** A character written by its code, or by the two halves of a surrogate pair. */
  function ScanUnicode(s: string): (r: Option<Scan<char>>)
    requires |s| >= 2
    ensures r.Some? ==> |r.value.rest| <= |s| - 6
  {
    match HexQuad(s, 2)
    case None => None
    case Some(n) =>
      if n < 0xD800 || 0xDFFF < n then Some(Scan(n as char, s[6..]))
      else if n > 0xDBFF || |s| < 12 || s[6..8] != "\\u" then None
      else match HexQuad(s, 8)
        case None => None
        case Some(m) =>
          if m < 0xDC00 || 0xDFFF < m then None
          else Some(Scan((0x10000 + (n - 0xD800) * 0x400 + (m - 0xDC00)) as char, s[12..]))
  }

  /** One character of a string body, in any of its spellings (section 7 of RFC 8259). */
  function ScanChar(s: string): (r: Option<Scan<char>>)
    requires s != ""
    ensures r.Some? ==> |r.value.rest| < |s|
  {
    if s[0] as int < 32 || s[0] == '"' then None
    else if s[0] != '\\' then Some(Scan(s[0], s[1..]))
    else if |s| < 2 then None
    else match s[1]
      case '"' => Some(Scan('"', s[2..]))
      case '\\' => Some(Scan('\\', s[2..]))
      case '/' => Some(Scan('/', s[2..]))
      case 'b' => Some(Scan(8 as char, s[2..]))
      case 't' => Some(Scan('\t', s[2..]))
      case 'n' => Some(Scan('\n', s[2..]))
      case 'f' => Some(Scan(12 as char, s[2..]))
      case 'r' => Some(Scan('\r', s[2..]))
      case 'u' => ScanUnicode(s)
      case _ => None
  }

  /** A string body up to its closing quote. */
  function ScanString(s: string): (r: Option<Scan<string>>)
    ensures r.Some? ==> |r.value.rest| < |s|
    decreases |s|
  {
    if s == "" then None
    else if s[0] == '"' then Some(Scan("", s[1..]))
    else match ScanChar(s)
      case None => None
      case Some(Scan(c, rest)) =>
        match ScanString(rest)
        case None => None
        case Some(Scan(more, end)) => Some(Scan([c] + more, end))
  }

  lemma HexReadsBack(n: nat)
    requires n < 16
    ensures HexValue(HexDigit(n)) == Some(n)
  {
  }

  lemma ScanByCode(c: char, rest: string)
    requires c as int < 32
    ensures var s := ['\\', 'u', '0', '0', HexDigit(c as int / 16), HexDigit(c as int % 16)] + rest;
            ScanUnicode(s) == Some(Scan(c, rest))
  {
    hide HexValue, HexDigit;
    HexReadsBack(0);
    HexReadsBack(c as int / 16);
    HexReadsBack(c as int % 16);
    var s := ['\\', 'u', '0', '0', HexDigit(c as int / 16), HexDigit(c as int % 16)] + rest;
    assert HexValue('0') == Some(0) by { ZeroIsHex(); }
    assert HexQuad(s, 2) == Some(c as int);
    assert s[6..] == rest;
  }

  lemma ZeroIsHex()
    ensures HexValue('0') == Some(0)
  {
  }

  lemma ScanEscaped(c: char, rest: string)
    ensures Escape(c) + rest != "" && (Escape(c) + rest)[0] != '"'
    ensures ScanChar(Escape(c) + rest) == Some(Scan(c, rest))
  {
    hide ScanUnicode;
    var s := Escape(c) + rest;
    assert s[|Escape(c)|..] == rest;
    if c as int < 32 && |Escape(c)| == 6 {
      ScanByCode(c, rest);
    }
  }

  lemma ScanSteps(s: string)
    requires s != "" && s[0] != '"' && ScanChar(s).Some?
    ensures var Scan(c, rest) := ScanChar(s).value;
            ScanString(s) == if ScanString(rest) == None then None
                             else Some(Scan([c] + ScanString(rest).value.value, ScanString(rest).value.rest))
  {
    hide ScanChar;
  }

  lemma ScanEnds(rest: string)
    ensures ScanString("\"" + rest) == Some(Scan("", rest))
  {
    assert ("\"" + rest)[1..] == rest;
  }

  /** Reading a quoted string gives the string back and stops right after it. */
  lemma {:induction false} ScanQuoted(t: string, rest: string)
    ensures ScanString(EscapeAll(t) + "\"" + rest) == Some(Scan(t, rest))
  {
    hide Escape, ScanChar, ScanString;
    if t == "" {
      ScanEnds(rest);
      assert EscapeAll(t) + "\"" + rest == "\"" + rest;
    } else {
      var tail := EscapeAll(t[1..]) + "\"" + rest;
      assert EscapeAll(t) + "\"" + rest == Escape(t[0]) + tail;
      ScanEscaped(t[0], tail);
      ScanSteps(Escape(t[0]) + tail);
      ScanQuoted(t[1..], rest);
      assert t == [t[0]] + t[1..];
    }
  }

  // ---------- Values ----------

  predicate NumberFree(x: Json) {
    match x
    case Number => false
    case Array(items) => forall i :: 0 <= i < |items| ==> NumberFree(items[i])
    case Object(entries) => forall i :: 0 <= i < |entries| ==> NumberFree(entries[i].value)
    case _ => true
  }

  function Print(x: Json): string
    requires NumberFree(x)
    decreases x, 0
  {
    match x
    case Null => "null"
    case Bool(b) => if b then "true" else "false"
    case Text(t) => Quoted(t)
    case Array(items) => "[" + PrintItems(items) + "]"
    case Object(entries) => "{" + PrintEntries(entries) + "}"
  }

  /** The items, separated by commas. */
  function PrintItems(items: seq<Json>): string
    requires forall i :: 0 <= i < |items| ==> NumberFree(items[i])
    decreases items, |items| + 1
  {
    if items == [] then ""
    else if |items| == 1 then Print(items[0])
    else Print(items[0]) + "," + PrintItems(items[1..])
  }

  function PrintEntry(e: Entry): string
    requires NumberFree(e.value)
    decreases e, 1
  {
    Quoted(e.key) + ":" + Print(e.value)
  }

  function PrintEntries(entries: seq<Entry>): string
    requires forall i :: 0 <= i < |entries| ==> NumberFree(entries[i].value)
    decreases entries, |entries| + 1
  {
    if entries == [] then ""
    else if |entries| == 1 then PrintEntry(entries[0])
    else PrintEntry(entries[0]) + "," + PrintEntries(entries[1..])
  }

  // ---------- Parsing ----------

  function ScanValue(s: string): (r: Option<Scan<Json>>)
    ensures r.Some? ==> |r.value.rest| < |s|
    decreases |s|, 0
  {
    if s == "" then None
    else if s[0] == 'n' then if |s| >= 4 && s[..4] == "null" then Some(Scan(Null, s[4..])) else None
    else if s[0] == 't' then if |s| >= 4 && s[..4] == "true" then Some(Scan(Bool(true), s[4..])) else None
    else if s[0] == 'f' then if |s| >= 5 && s[..5] == "false" then Some(Scan(Bool(false), s[5..])) else None
    else if s[0] == '"' then
      match ScanString(s[1..])
      case None => None
      case Some(Scan(t, rest)) => Some(Scan(Text(t), rest))
    else if s[0] == '[' then
      if |s| >= 2 && s[1] == ']' then Some(Scan(Array([]), s[2..]))
      else match ScanItems(s[1..])
        case None => None
        case Some(Scan(items, rest)) => Some(Scan(Array(items), rest))
    else if s[0] == '{' then
      if |s| >= 2 && s[1] == '}' then Some(Scan(Object([]), s[2..]))
      else match ScanEntries(s[1..])
        case None => None
        case Some(Scan(entries, rest)) => Some(Scan(Object(entries), rest))
    else None
  }

  function ScanItems(s: string): (r: Option<Scan<seq<Json>>>)
    ensures r.Some? ==> |r.value.rest| < |s|
    decreases |s|, 1
  {
    match ScanValue(s)
    case None => None
    case Some(Scan(x, rest)) =>
      if rest == "" then None
      else if rest[0] == ']' then Some(Scan([x], rest[1..]))
      else if rest[0] != ',' then None
      else match ScanItems(rest[1..])
        case None => None
        case Some(Scan(more, end)) => Some(Scan([x] + more, end))
  }

  function ScanEntry(s: string): (r: Option<Scan<Entry>>)
    ensures r.Some? ==> |r.value.rest| < |s|
    decreases |s|, 1
  {
    if s == "" || s[0] != '"' then None
    else match ScanString(s[1..])
      case None => None
      case Some(Scan(key, rest)) =>
        if rest == "" || rest[0] != ':' then None
        else match ScanValue(rest[1..])
          case None => None
          case Some(Scan(x, end)) => Some(Scan(Entry(key, x), end))
  }

  function ScanEntries(s: string): (r: Option<Scan<seq<Entry>>>)
    ensures r.Some? ==> |r.value.rest| < |s|
    decreases |s|, 2
  {
    match ScanEntry(s)
    case None => None
    case Some(Scan(e, rest)) =>
      if rest == "" then None
      else if rest[0] == '}' then Some(Scan([e], rest[1..]))
      else if rest[0] != ',' then None
      else match ScanEntries(rest[1..])
        case None => None
        case Some(Scan(more, end)) => Some(Scan([e] + more, end))
  }

  /** A printed value starts with none of the closing or separating characters. */
  lemma PrintStarts(x: Json)
    requires NumberFree(x)
    ensures Print(x) != "" && Print(x)[0] !in {']', '}', ',', ':'}
  {
  }

  lemma ScanArrayBody(body: string)
    requires body != "" && body[0] != ']'
    ensures ScanValue("[" + body) == match ScanItems(body) case None => None case Some(r) => Some(Scan(Array(r.value), r.rest))
  {
    hide ScanItems;
    var s := "[" + body;
    assert s[0] == '[' && |s| >= 2 && s[1] == body[0] && s[1..] == body;
  }

  lemma ScanObjectBody(body: string)
    requires body != "" && body[0] != '}'
    ensures ScanValue("{" + body)
            == match ScanEntries(body) case None => None case Some(r) => Some(Scan(Object(r.value), r.rest))
  {
    hide ScanEntries;
    var s := "{" + body;
    assert s[0] == '{' && |s| >= 2 && s[1] == body[0] && s[1..] == body;
  }

  lemma ScanLeaf(x: Json, rest: string)
    requires NumberFree(x) && (x.Null? || x.Bool? || x == Array([]) || x == Object([]))
    ensures ScanValue(Print(x) + rest) == Some(Scan(x, rest))
  {
    assert ("null" + rest)[..4] == "null" && ("null" + rest)[4..] == rest;
    assert ("true" + rest)[..4] == "true" && ("true" + rest)[4..] == rest;
    assert ("false" + rest)[..5] == "false" && ("false" + rest)[5..] == rest;
    assert ("[]" + rest)[2..] == rest && ("{}" + rest)[2..] == rest;
  }

  lemma ScanTextValue(t: string, rest: string)
    ensures ScanValue(Quoted(t) + rest) == Some(Scan(Text(t), rest))
  {
    hide EscapeAll, ScanString;
    ScanQuoted(t, rest);
    assert (Quoted(t) + rest)[1..] == EscapeAll(t) + "\"" + rest;
  }

  /** Parsing a printed value followed by anything gives the value and the rest. */
  lemma {:induction false} PrintParses(x: Json, rest: string)
    requires NumberFree(x)
    ensures ScanValue(Print(x) + rest) == Some(Scan(x, rest))
    decreases x, 0
  {
    hide ScanValue, ScanItems, ScanEntries, PrintItems, PrintEntries, Quoted;
    match x
    case Null => ScanLeaf(x, rest);
    case Bool(_) => ScanLeaf(x, rest);
    case Text(t) => ScanTextValue(t, rest);
    case Array(items) =>
      if items == [] {
        ScanLeaf(x, rest);
      } else {
        var body := PrintItems(items) + "]" + rest;
        ItemsParse(items, rest);
        ItemsStart(items);
        ScanArrayBody(body);
        assert Print(x) + rest == "[" + body;
      }
    case Object(entries) =>
      if entries == [] {
        ScanLeaf(x, rest);
      } else {
        var body := PrintEntries(entries) + "}" + rest;
        EntriesParse(entries, rest);
        EntriesStart(entries);
        ScanObjectBody(body);
        assert Print(x) + rest == "{" + body;
      }
  }

  lemma ItemsStart(items: seq<Json>)
    requires items != [] && forall i :: 0 <= i < |items| ==> NumberFree(items[i])
    ensures PrintItems(items) != "" && PrintItems(items)[0] != ']'
  {
    hide Print;
    PrintStarts(items[0]);
  }

  lemma EntriesStart(entries: seq<Entry>)
    requires entries != [] && forall i :: 0 <= i < |entries| ==> NumberFree(entries[i].value)
    ensures PrintEntries(entries) != "" && PrintEntries(entries)[0] != '}'
  {
    hide Print, EscapeAll;
    assert PrintEntry(entries[0])[0] == '"';
  }

  lemma {:induction false} ItemsParse(items: seq<Json>, rest: string)
    requires items != [] && forall i :: 0 <= i < |items| ==> NumberFree(items[i])
    ensures ScanItems(PrintItems(items) + "]" + rest) == Some(Scan(items, rest))
    decreases items, |items| + 1
  {
    hide Print, ScanValue;
    if |items| == 1 {
      PrintParses(items[0], "]" + rest);
      assert PrintItems(items) + "]" + rest == Print(items[0]) + ("]" + rest);
      assert items == [items[0]];
    } else {
      var tail := PrintItems(items[1..]) + "]" + rest;
      PrintParses(items[0], "," + tail);
      assert PrintItems(items) + "]" + rest == Print(items[0]) + ("," + tail);
      ItemsParse(items[1..], rest);
      assert ("," + tail)[1..] == tail;
      assert items == [items[0]] + items[1..];
    }
  }

  lemma {:induction false} EntryParses(e: Entry, rest: string)
    requires NumberFree(e.value)
    ensures ScanEntry(PrintEntry(e) + rest) == Some(Scan(e, rest))
    decreases e, 1
  {
    hide Print, ScanValue, ScanString, EscapeAll;
    var tail := ":" + Print(e.value) + rest;
    assert (PrintEntry(e) + rest)[1..] == EscapeAll(e.key) + "\"" + tail;
    ScanQuoted(e.key, tail);
    assert tail[1..] == Print(e.value) + rest;
    PrintParses(e.value, rest);
  }

  lemma {:induction false} EntriesParse(entries: seq<Entry>, rest: string)
    requires entries != [] && forall i :: 0 <= i < |entries| ==> NumberFree(entries[i].value)
    ensures ScanEntries(PrintEntries(entries) + "}" + rest) == Some(Scan(entries, rest))
    decreases entries, |entries| + 1
  {
    hide PrintEntry, ScanEntry;
    if |entries| == 1 {
      EntryParses(entries[0], "}" + rest);
      assert PrintEntries(entries) + "}" + rest == PrintEntry(entries[0]) + ("}" + rest);
      assert entries == [entries[0]];
    } else {
      var tail := PrintEntries(entries[1..]) + "}" + rest;
      EntryParses(entries[0], "," + tail);
      assert PrintEntries(entries) + "}" + rest == PrintEntry(entries[0]) + ("," + tail);
      EntriesParse(entries[1..], rest);
      assert ("," + tail)[1..] == tail;
      assert entries == [entries[0]] + entries[1..];
    }
  }

  /** Different values print differently, and no printed value is a prefix of another. */
  lemma PrintIsPrefixFree(x: Json, y: Json, restX: string, restY: string)
    requires NumberFree(x) && NumberFree(y) && Print(x) + restX == Print(y) + restY
    ensures x == y && restX == restY
  {
    PrintParses(x, restX);
    PrintParses(y, restY);
  }

  // ---------- The shortest text ----------

  /** The characters that a text spells, read by their code: what serializers must escape, and how long that gets. */
  function SpellingLength(c: char): nat {
    if c as int in {8, 9, 10, 12, 13, 34, 92} then 2 else if (c as int) < 32 then 6 else 1
  }

  /** No capital hexadecimal digit among the last two of a spelling by code. */
  predicate LowerHex(s: string) {
    |s| == 6 ==> !('A' <= s[4] <= 'F') && !('A' <= s[5] <= 'F')
  }

  lemma HexIsUnique(c: char, n: nat)
    requires n < 16 && HexValue(c) == Some(n) && !('A' <= c <= 'F')
    ensures c == HexDigit(n)
  {
  }

  lemma CodeIsUnique(s: string, c: char)
    requires |s| == 6 && s[0] == '\\' && s[1] == 'u' && c as int < 32 && ScanUnicode(s) == Some(Scan(c, ""))
    requires LowerHex(s)
    ensures s == ['\\', 'u', '0', '0', HexDigit(c as int / 16), HexDigit(c as int % 16)]
  {
    hide HexDigit;
    var a, b, d, e := HexValue(s[2]).value, HexValue(s[3]).value, HexValue(s[4]).value, HexValue(s[5]).value;
    assert ((a * 16 + b) * 16 + d) * 16 + e == c as int;
    assert a == 0 && b == 0 && d == c as int / 16 && e == c as int % 16;
    assert s[2] == '0' && s[3] == '0';
    HexIsUnique(s[4], d);
    HexIsUnique(s[5], e);
  }

  lemma ShortIsUnique(s: string, c: char)
    requires 0 < |s| <= 2 && ScanChar(s) == Some(Scan(c, "")) && |s| == SpellingLength(c)
    ensures s == Escape(c)
  {
    hide HexQuad;
  }

  /** A character's spelling is the shortest of all that read as it, and the only one of that length, capital
      hexadecimal digits aside. */
  lemma EscapeIsShortest(s: string, c: char)
    requires s != "" && ScanChar(s) == Some(Scan(c, ""))
    ensures |Escape(c)| == SpellingLength(c) <= |s|
    ensures |s| == SpellingLength(c) && LowerHex(s) ==> s == Escape(c)
  {
    hide HexQuad, HexDigit;
    if |s| == SpellingLength(c) && LowerHex(s) {
      if |s| <= 2 {
        ShortIsUnique(s, c);
      } else {
        CodeIsUnique(s, c);
      }
    }
  }

  lemma CharIsShortest(s: string)
    requires s != "" && ScanChar(s).Some?
    ensures var Scan(c, rest) := ScanChar(s).value; |Escape(c)| + |rest| <= |s|
  {
    hide HexQuad, HexDigit;
  }

  lemma {:induction false} StringIsShortest(s: string)
    requires ScanString(s).Some?
    ensures var Scan(t, rest) := ScanString(s).value; |EscapeAll(t)| + 1 + |rest| <= |s|
    decreases |s|
  {
    hide ScanChar, Escape;
    if s[0] != '"' {
      CharIsShortest(s);
      StringIsShortest(ScanChar(s).value.rest);
      var t := ScanString(s).value.value;
      assert t[1..] == ScanString(ScanChar(s).value.rest).value.value;
    }
  }

  /** Of all texts that are read as a value, its print is the shortest. */
  lemma {:induction false} PrintIsShortest(s: string)
    requires ScanValue(s).Some?
    ensures var Scan(x, rest) := ScanValue(s).value; NumberFree(x) && |Print(x)| + |rest| <= |s|
    decreases |s|, 0
  {
    hide ScanString, ScanItems, ScanEntries, Quoted, PrintItems, PrintEntries;
    if s[0] == '"' {
      QuotedIsShortest(s);
    } else if s[0] == '[' {
      if !(|s| >= 2 && s[1] == ']') {
        ItemsAreShortest(s[1..]);
      } else {
        NothingPrinted();
      }
    } else if s[0] == '{' {
      if !(|s| >= 2 && s[1] == '}') {
        EntriesAreShortest(s[1..]);
      } else {
        NothingPrinted();
      }
    }
  }

  lemma NothingPrinted()
    ensures PrintItems([]) == "" && PrintEntries([]) == ""
  {
  }

  lemma QuotedIsShortest(s: string)
    requires s != "" && s[0] == '"' && ScanString(s[1..]).Some?
    ensures var Scan(t, rest) := ScanString(s[1..]).value; |Quoted(t)| + |rest| <= |s|
  {
    hide ScanString, EscapeAll;
    StringIsShortest(s[1..]);
  }

  lemma {:induction false} ItemsAreShortest(s: string)
    requires ScanItems(s).Some?
    ensures var Scan(items, rest) := ScanItems(s).value;
            && (forall i :: 0 <= i < |items| ==> NumberFree(items[i]))
            && |PrintItems(items)| + 1 + |rest| <= |s|
    decreases |s|, 1
  {
    hide ScanValue, Print;
    PrintIsShortest(s);
    var Scan(x, rest) := ScanValue(s).value;
    if rest[0] == ',' {
      ItemsAreShortest(rest[1..]);
      var items := ScanItems(s).value.value;
      assert items[1..] == ScanItems(rest[1..]).value.value;
    }
  }

  lemma {:induction false} EntryIsShortest(s: string)
    requires ScanEntry(s).Some?
    ensures var Scan(e, rest) := ScanEntry(s).value; NumberFree(e.value) && |PrintEntry(e)| + |rest| <= |s|
    decreases |s|, 1
  {
    hide ScanValue, ScanString, Print, Quoted;
    QuotedIsShortest(s);
    PrintIsShortest(ScanString(s[1..]).value.rest[1..]);
  }

  lemma {:induction false} EntriesAreShortest(s: string)
    requires ScanEntries(s).Some?
    ensures var Scan(entries, rest) := ScanEntries(s).value;
            && (forall i :: 0 <= i < |entries| ==> NumberFree(entries[i].value))
            && |PrintEntries(entries)| + 1 + |rest| <= |s|
    decreases |s|, 2
  {
    hide ScanEntry, PrintEntry;
    EntryIsShortest(s);
    var Scan(e, rest) := ScanEntry(s).value;
    if rest[0] == ',' {
      EntriesAreShortest(rest[1..]);
      var entries := ScanEntries(s).value.value;
      assert entries[1..] == ScanEntries(rest[1..]).value.value;
    }
  }

  // ---------- Every character by its code ----------

  function ByCode(n: nat): (s: string)
    requires n < 0x10000
    ensures |s| == 6 && s[0] == '\\' && s[1] == 'u'
  {
    ['\\', 'u', HexDigit(n / 4096), HexDigit(n / 256 % 16), HexDigit(n / 16 % 16), HexDigit(n % 16)]
  }

  /** The two halves of a surrogate pair. */
  function High(n: nat): (h: nat)
    requires 0x10000 <= n < 0x110000
    ensures 0xD800 <= h <= 0xDBFF
  {
    0xD800 + (n - 0x10000) / 0x400
  }

  function Low(n: nat): (l: nat)
    requires 0x10000 <= n < 0x110000
    ensures 0xDC00 <= l <= 0xDFFF && 0x10000 + (High(n) - 0xD800) * 0x400 + (l - 0xDC00) == n
  {
    0xDC00 + (n - 0x10000) % 0x400
  }

  /** The character by its code, beyond the first 2^16 by the two halves of a surrogate pair. */
  function LongForm(c: char): string {
    var n := c as int;
    if n < 0x10000 then ByCode(n) else ByCode(High(n)) + ByCode(Low(n))
  }

  lemma QuadReads(before: string, n: nat, rest: string)
    requires n < 0x10000
    ensures HexQuad(before + ByCode(n) + rest, |before| + 2) == Some(n)
  {
    hide HexValue, HexDigit;
    HexReadsBack(n / 4096);
    HexReadsBack(n / 256 % 16);
    HexReadsBack(n / 16 % 16);
    HexReadsBack(n % 16);
    var s, i := before + ByCode(n) + rest, |before| + 2;
    assert s[i] == ByCode(n)[2] && s[i + 1] == ByCode(n)[3] && s[i + 2] == ByCode(n)[4] && s[i + 3] == ByCode(n)[5];
    QuadValue(n);
  }

  lemma QuadValue(n: nat)
    ensures ((n / 4096 * 16 + n / 256 % 16) * 16 + n / 16 % 16) * 16 + n % 16 == n
  {
    assert n / 16 / 16 == n / 256 && n / 256 / 16 == n / 4096;
  }

  lemma BasicReads(n: nat, rest: string)
    requires n < 0xD800 || 0xDFFF < n < 0x10000
    ensures ScanUnicode(ByCode(n) + rest) == Some(Scan(n as char, rest))
  {
    hide HexQuad, HexDigit;
    QuadReads("", n, rest);
    assert "" + ByCode(n) + rest == ByCode(n) + rest && (ByCode(n) + rest)[6..] == rest;
  }

  lemma PairReads(high: nat, low: nat, rest: string)
    requires 0xD800 <= high <= 0xDBFF && 0xDC00 <= low <= 0xDFFF
    ensures ScanUnicode(ByCode(high) + ByCode(low) + rest)
         == Some(Scan((0x10000 + (high - 0xD800) * 0x400 + (low - 0xDC00)) as char, rest))
  {
    hide HexQuad, HexDigit;
    var s := ByCode(high) + ByCode(low) + rest;
    QuadReads("", high, ByCode(low) + rest);
    QuadReads(ByCode(high), low, rest);
    assert "" + ByCode(high) + (ByCode(low) + rest) == s;
    assert s[6] == '\\' && s[7] == 'u' && s[6..8] == "\\u" && s[12..] == rest;
  }

  lemma UnicodeEscape(s: string)
    requires |s| >= 2 && s[0] == '\\' && s[1] == 'u'
    ensures ScanChar(s) == ScanUnicode(s)
  {
    hide ScanUnicode;
  }

  /** Every character is read off its long form, too. */
  lemma LongFormReads(c: char, rest: string)
    ensures LongForm(c) + rest != "" && ScanChar(LongForm(c) + rest) == Some(Scan(c, rest))
  {
    hide ScanUnicode, ScanChar, ByCode, High, Low;
    var n, s := c as int, LongForm(c) + rest;
    if n < 0x10000 {
      BasicReads(n, rest);
      assert s == ByCode(n) + rest;
    } else {
      PairReads(High(n), Low(n), rest);
      assert s == ByCode(High(n)) + ByCode(Low(n)) + rest;
    }
    UnicodeEscape(s);
  }
}
