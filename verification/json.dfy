/** JSON values and their text as the two serializers of the relay write it:
    JavaScript's `JSON.stringify(v)` (no spaces, non-ASCII characters kept) and
    Python's `json.dumps(v)` with its defaults (`", "` and `": "` separators,
    `ensure_ascii=True`). Both escape strings the same way apart from
    `ensure_ascii`; `Unescape` is the reading side, used to show that the
    escaping loses nothing. */
module Json {
  import opened Wrappers
  import Text

  datatype Json =
    | JString(text: string)
    | JNumber(n: nat)
    | JArray(items: seq<Json>)
    | JObject(members: seq<Member>)

  /** One `"name": value` pair; members keep their insertion order. */
  datatype Member = Member(name: string, value: Json)

  /** Output conventions of a serializer that does not indent. */
  datatype Style = Style(itemSep: string, nameSep: string, asciiOnly: bool)

  /** `JSON.stringify(v)`. */
  const Stringify := Style(",", ":", false)

  /** `json.dumps(v)` with default arguments. */
  const Dumps := Style(", ", ": ", true)

  /** No character below U+0020 (the C0 controls, among them LF and CR), and
      only SPACE..TILDE when `asciiOnly`. */
  predicate Printable(s: string, asciiOnly: bool) {
    forall i :: 0 <= i < |s| ==> ' ' <= s[i] && (asciiOnly ==> s[i] <= '~')
  }

  /** Lower-case hexadecimal digit of `d`. */
  function HexDigit(d: nat): (c: char)
    requires d < 16
    ensures '0' <= c <= '9' || 'a' <= c <= 'f'
  {
    if d < 10 then (48 + d) as char else (87 + d) as char
  }

  /** Value of a hexadecimal digit of either case. */
  function HexValue(c: char): Option<nat> {
    if '0' <= c <= '9' then Some(c as int - 48)
    else if 'a' <= c <= 'f' then Some(c as int - 87)
    else if 'A' <= c <= 'F' then Some(c as int - 55)
    else None
  }

  /** Four lower-case hexadecimal digits of `n`, most significant first. */
  function Hex4(n: nat): (s: string)
    requires n < 0x10000
    ensures |s| == 4 && Printable(s, true)
  {
    [HexDigit(n / 16 / 16 / 16), HexDigit(n / 16 / 16 % 16), HexDigit(n / 16 % 16), HexDigit(n % 16)]
  }

  /** The value of four hexadecimal digits. */
  function ParseHex4(s: string): Option<nat>
    requires |s| == 4
  {
    match (HexValue(s[0]), HexValue(s[1]), HexValue(s[2]), HexValue(s[3]))
    case (Some(a), Some(b), Some(c), Some(d)) => Some(a * 0x1000 + b * 0x100 + c * 0x10 + d)
    case _ => None
  }

  lemma HexDigitValue(d: nat)
    requires d < 16
    ensures HexValue(HexDigit(d)) == Some(d)
  {
  }

  /** Reading back four written digits gives the number written. */
  lemma ParseHex4Hex4(n: nat)
    requires n < 0x10000
    ensures ParseHex4(Hex4(n)) == Some(n)
  {
    var n1 := n / 16;
    var n2 := n1 / 16;
    var d0, d1, d2, d3 := n2 / 16, n2 % 16, n1 % 16, n % 16;
    HexDigitValue(d0);
    HexDigitValue(d1);
    HexDigitValue(d2);
    HexDigitValue(d3);
    assert n == n1 * 16 + d3;
    assert n1 == n2 * 16 + d2;
    assert n2 == d0 * 16 + d1;
    assert n == d0 * 0x1000 + d1 * 0x100 + d2 * 0x10 + d3;
  }

  /** `\uXXXX` for a 16-bit code unit. */
  function UnicodeEscape(n: nat): (s: string)
    requires n < 0x10000
    ensures |s| == 6 && s[..2] == "\\u" && s[2..] == Hex4(n) && Printable(s, true)
  {
    "\\u" + Hex4(n)
  }

  /** A character as it appears inside a JSON string literal: the two-character
      escapes for quote, backslash, backspace, form feed, line feed, carriage
      return and tab; `\u00XX` for the other control characters; with
      `asciiOnly`, `\uXXXX` (a surrogate pair above U+FFFF) for everything
      outside SPACE..TILDE; otherwise the character itself. */
  function EscapeChar(c: char, asciiOnly: bool): (s: string)
    ensures Printable(s, asciiOnly)
  {
    if c == '"' then "\\\""
    else if c == '\\' then "\\\\"
    else if c == '\U{0008}' then "\\b"
    else if c == '\U{000C}' then "\\f"
    else if c == '\n' then "\\n"
    else if c == '\r' then "\\r"
    else if c == '\t' then "\\t"
    else if c < ' ' then UnicodeEscape(c as int)
    else if asciiOnly && c > '~' then
      if c as int < 0x10000 then UnicodeEscape(c as int)
      else
        var v := c as int - 0x10000;
        UnicodeEscape(0xD800 + v / 0x400) + UnicodeEscape(0xDC00 + v % 0x400)
    else [c]
  }

  /** The body of a JSON string literal for `s`. */
  function Escape(s: string, asciiOnly: bool): string {
    if s == [] then "" else EscapeChar(s[0], asciiOnly) + Escape(s[1..], asciiOnly)
  }

  /** `s` as a JSON string literal, quotes included. */
  function Quote(s: string, asciiOnly: bool): string {
    "\"" + Escape(s, asciiOnly) + "\""
  }

  /** An escaped string holds no character below U+0020, and only
      SPACE..TILDE when `asciiOnly`. */
  lemma {:induction false} EscapePrintable(s: string, asciiOnly: bool)
    ensures Printable(Escape(s, asciiOnly), asciiOnly)
  {
    if s != [] {
      EscapePrintable(s[1..], asciiOnly);
      PrintableConcat(EscapeChar(s[0], asciiOnly), Escape(s[1..], asciiOnly), asciiOnly);
    }
  }

  lemma QuotePrintable(s: string, asciiOnly: bool)
    ensures Printable(Quote(s, asciiOnly), asciiOnly)
  {
    EscapePrintable(s, asciiOnly);
    PrintableConcat("\"", Escape(s, asciiOnly), asciiOnly);
    PrintableConcat("\"" + Escape(s, asciiOnly), "\"", asciiOnly);
  }

  /** A string of plain characters (no quote, backslash, control character,
      nor anything outside ASCII) is written as it is. */
  lemma {:induction false} EscapePlain(s: string, asciiOnly: bool)
    requires forall i :: 0 <= i < |s| ==> ' ' <= s[i] <= '~' && s[i] != '"' && s[i] != '\\'
    ensures Escape(s, asciiOnly) == s
  {
    if s != [] {
      EscapePlain(s[1..], asciiOnly);
      assert s == [s[0]] + s[1..];
    }
  }

  /** Decimal digits of `n`, as both serializers write a non-negative integer. */
  function Decimal(n: nat): (s: string)
    ensures s != [] && Printable(s, true)
  {
    if n < 10 then [HexDigit(n)]
    else Decimal(n / 10) + [HexDigit(n % 10)]
  }

  /** The text of `j` in style `st`. */
  function Serialize(j: Json, st: Style): string
    decreases j, 1
  {
    match j
    case JString(t) => Quote(t, st.asciiOnly)
    case JNumber(n) => Decimal(n)
    case JArray(items) => "[" + Text.Join(ItemTexts(j, st), st.itemSep) + "]"
    case JObject(ms) => "{" + Text.Join(MemberTexts(j, st), st.itemSep) + "}"
  }

  /** The texts of an array's items, in order. */
  function ItemTexts(j: Json, st: Style): (r: seq<string>)
    requires j.JArray?
    ensures |r| == |j.items|
    decreases j, 0
  {
    seq(|j.items|, i requires 0 <= i < |j.items| => Serialize(j.items[i], st))
  }

  /** The `"name": value` texts of an object's members, in order. */
  function MemberTexts(j: Json, st: Style): (r: seq<string>)
    requires j.JObject?
    ensures |r| == |j.members|
    decreases j, 0
  {
    seq(|j.members|, i requires 0 <= i < |j.members| =>
          Quote(j.members[i].name, st.asciiOnly) + st.nameSep + Serialize(j.members[i].value, st))
  }

  /** The text of a one-member object. */
  lemma SerializeObject1(n: string, v: Json, st: Style)
    ensures Serialize(JObject([Member(n, v)]), st)
         == "{" + Quote(n, st.asciiOnly) + st.nameSep + Serialize(v, st) + "}"
  {
    var j, member := JObject([Member(n, v)]), Quote(n, st.asciiOnly) + st.nameSep + Serialize(v, st);
    assert Text.Join(MemberTexts(j, st), st.itemSep) == member by {
      assert MemberTexts(j, st)[0] == member;
    }
    assert Serialize(j, st) == "{" + member + "}";
    Text.Associate("{", Quote(n, st.asciiOnly) + st.nameSep, Serialize(v, st));
    Text.Associate("{", Quote(n, st.asciiOnly), st.nameSep);
  }

  /** The text of a two-member object: members in order, separated by `itemSep`. */
  lemma SerializeObject2(n1: string, v1: Json, n2: string, v2: Json, st: Style)
    ensures Serialize(JObject([Member(n1, v1), Member(n2, v2)]), st)
         == "{" + Quote(n1, st.asciiOnly) + st.nameSep + Serialize(v1, st) + st.itemSep
            + Quote(n2, st.asciiOnly) + st.nameSep + Serialize(v2, st) + "}"
  {
    var m := MemberTexts(JObject([Member(n1, v1), Member(n2, v2)]), st);
    var first := Quote(n1, st.asciiOnly) + st.nameSep + Serialize(v1, st);
    var second := Quote(n2, st.asciiOnly) + st.nameSep + Serialize(v2, st);
    assert Text.Join(m, st.itemSep) == first + st.itemSep + second by {
      assert m[0] == first;
      assert m[1..] == [second];
    }
    assert Serialize(JObject([Member(n1, v1), Member(n2, v2)]), st) == "{" + (first + st.itemSep + second) + "}";
    var q1, s1, q2, s2 := Quote(n1, st.asciiOnly), Serialize(v1, st), Quote(n2, st.asciiOnly), Serialize(v2, st);
    var head := "{" + q1 + st.nameSep + s1 + st.itemSep;
    assert "{" + (first + st.itemSep) == head by {
      Text.Associate("{", q1 + st.nameSep + s1, st.itemSep);
      Text.Associate("{", q1 + st.nameSep, s1);
      Text.Associate("{", q1, st.nameSep);
    }
    assert head + second == head + q2 + st.nameSep + s2 by {
      Text.Associate(head, q2 + st.nameSep, s2);
      Text.Associate(head, q2, st.nameSep);
    }
    Text.Associate("{", first + st.itemSep, second);
  }

  /** The text of a one-item array. */
  lemma SerializeArray1(v: Json, st: Style)
    ensures Serialize(JArray([v]), st) == "[" + Serialize(v, st) + "]"
  {
    assert ItemTexts(JArray([v]), st)[0] == Serialize(v, st);
  }

  /** Names made of lower-case letters are quoted as they are. */
  lemma QuoteWord(w: string, asciiOnly: bool)
    requires forall i :: 0 <= i < |w| ==> 'a' <= w[i] <= 'z'
    ensures Quote(w, asciiOnly) == "\"" + w + "\""
  {
    EscapePlain(w, asciiOnly);
  }

  /** Zero is written `0`. */
  lemma SerializeZero(st: Style)
    ensures Serialize(JNumber(0), st) == "0"
  {
    assert HexDigit(0) == '0';
  }

  /** Joining printable pieces with a printable separator gives printable text. */
  lemma {:induction false} JoinPrintable(parts: seq<string>, sep: string, asciiOnly: bool)
    requires Printable(sep, asciiOnly)
    requires forall k :: 0 <= k < |parts| ==> Printable(parts[k], asciiOnly)
    ensures Printable(Text.Join(parts, sep), asciiOnly)
  {
    if |parts| > 1 {
      JoinPrintable(parts[1..], sep, asciiOnly);
      var rest := Text.Join(parts[1..], sep);
      var whole := parts[0] + sep + rest;
      forall i | 0 <= i < |whole| ensures ' ' <= whole[i] && (asciiOnly ==> whole[i] <= '~') {
        if i < |parts[0]| {
          assert whole[i] == parts[0][i];
        } else if i < |parts[0]| + |sep| {
          assert whole[i] == sep[i - |parts[0]|];
        } else {
          assert whole[i] == rest[i - |parts[0]| - |sep|];
        }
      }
    }
  }

  lemma PrintableConcat(a: string, b: string, asciiOnly: bool)
    requires Printable(a, asciiOnly) && Printable(b, asciiOnly)
    ensures Printable(a + b, asciiOnly)
  {
    assert forall i :: |a| <= i < |a + b| ==> (a + b)[i] == b[i - |a|];
  }

  /** A serialized value never contains a character below U+0020 (in
      particular no line feed or carriage return), and with `json.dumps` it is
      printable ASCII: whatever the strings inside, the text fits on one line. */
  lemma {:induction false} SerializePrintable(j: Json, st: Style)
    requires st == Stringify || st == Dumps
    ensures Printable(Serialize(j, st), st.asciiOnly)
  {
    match j
    case JString(t) =>
      QuotePrintable(t, st.asciiOnly);
    case JNumber(n) =>
    case JArray(items) =>
      var parts := ItemTexts(j, st);
      forall k | 0 <= k < |parts| ensures Printable(parts[k], st.asciiOnly) {
        SerializePrintable(items[k], st);
      }
      JoinPrintable(parts, st.itemSep, st.asciiOnly);
      PrintableConcat("[", Text.Join(parts, st.itemSep), st.asciiOnly);
      PrintableConcat("[" + Text.Join(parts, st.itemSep), "]", st.asciiOnly);
    case JObject(ms) =>
      var parts := MemberTexts(j, st);
      forall k | 0 <= k < |parts| ensures Printable(parts[k], st.asciiOnly) {
        SerializePrintable(ms[k].value, st);
        QuotePrintable(ms[k].name, st.asciiOnly);
        PrintableConcat(Quote(ms[k].name, st.asciiOnly), st.nameSep, st.asciiOnly);
        PrintableConcat(Quote(ms[k].name, st.asciiOnly) + st.nameSep, Serialize(ms[k].value, st), st.asciiOnly);
      }
      JoinPrintable(parts, st.itemSep, st.asciiOnly);
      PrintableConcat("{", Text.Join(parts, st.itemSep), st.asciiOnly);
      PrintableConcat("{" + Text.Join(parts, st.itemSep), "}", st.asciiOnly);
  }

  /** `c` followed by the decoded rest, or failure if the rest does not decode. */
  function Prepend(c: char, rest: Option<string>): Option<string> {
    match rest
    case Some(r) => Some([c] + r)
    case None => None
  }

  /** A code point that is a Unicode scalar value (Dafny's `char`). */
  predicate IsScalar(n: nat) {
    n < 0xD800 || (0xE000 <= n < 0x110000)
  }

  /** Reads the body of a JSON string literal back into the string it denotes:
      rejects a bare quote or control character and an unknown escape, and
      joins a `\uD8xx\uDCxx` surrogate pair into one character. */
  function Unescape(s: string): Option<string>
    decreases |s|
  {
    if s == [] then Some([])
    else if s[0] != '\\' then
      if s[0] == '"' || s[0] < ' ' then None else Prepend(s[0], Unescape(s[1..]))
    else if |s| < 2 then None
    else if s[1] == '"' then Prepend('"', Unescape(s[2..]))
    else if s[1] == '\\' then Prepend('\\', Unescape(s[2..]))
    else if s[1] == '/' then Prepend('/', Unescape(s[2..]))
    else if s[1] == 'b' then Prepend('\U{0008}', Unescape(s[2..]))
    else if s[1] == 'f' then Prepend('\U{000C}', Unescape(s[2..]))
    else if s[1] == 'n' then Prepend('\n', Unescape(s[2..]))
    else if s[1] == 'r' then Prepend('\r', Unescape(s[2..]))
    else if s[1] == 't' then Prepend('\t', Unescape(s[2..]))
    else if s[1] != 'u' || |s| < 6 then None
    else
      match ParseHex4(s[2..6])
      case None => None
      case Some(hi) =>
        if 0xD800 <= hi < 0xDC00 && |s| >= 12 && s[6] == '\\' && s[7] == 'u'
           && ParseHex4(s[8..12]).Some? && 0xDC00 <= ParseHex4(s[8..12]).value < 0xE000
        then
          var lo := ParseHex4(s[8..12]).value;
          Prepend((0x10000 + (hi - 0xD800) * 0x400 + (lo - 0xDC00)) as char, Unescape(s[12..]))
        else if IsScalar(hi) then Prepend(hi as char, Unescape(s[6..]))
        else None
  }

  /** A `\uXXXX` escape of a code unit that is not a high surrogate reads back as that character. */
  lemma UnescapeBmp(c: char, rest: string)
    requires c as int < 0x10000
    ensures Unescape(UnicodeEscape(c as int) + rest) == Prepend(c, Unescape(rest))
  {
    var s := UnicodeEscape(c as int) + rest;
    ParseHex4Hex4(c as int);
    assert s[0] == '\\' && s[1] == 'u';
    assert s[2..6] == Hex4(c as int);
    assert s[6..] == rest;
  }

  /** A surrogate-pair escape reads back as the one character it encodes. */
  lemma UnescapePair(c: char, rest: string)
    requires c as int >= 0x10000
    ensures var v := c as int - 0x10000;
            Unescape(UnicodeEscape(0xD800 + v / 0x400) + UnicodeEscape(0xDC00 + v % 0x400) + rest)
            == Prepend(c, Unescape(rest))
  {
    var v := c as int - 0x10000;
    var hi, lo := 0xD800 + v / 0x400, 0xDC00 + v % 0x400;
    assert 0x10000 + (hi - 0xD800) * 0x400 + (lo - 0xDC00) == c as int;
    UnescapeSurrogates(hi, lo, rest);
  }

  /** A high and a low surrogate escape read back as the character they
      encode together (a helper of `UnescapePair`). */
  lemma UnescapeSurrogates(hi: nat, lo: nat, rest: string)
    requires 0xD800 <= hi < 0xDC00 && 0xDC00 <= lo < 0xE000
    ensures 0x10000 <= 0x10000 + (hi - 0xD800) * 0x400 + (lo - 0xDC00) < 0x110000
    ensures Unescape(UnicodeEscape(hi) + UnicodeEscape(lo) + rest)
            == Prepend((0x10000 + (hi - 0xD800) * 0x400 + (lo - 0xDC00)) as char, Unescape(rest))
  {
    var s := UnicodeEscape(hi) + UnicodeEscape(lo) + rest;
    ParseHex4Hex4(hi);
    ParseHex4Hex4(lo);
    assert s[0] == '\\' && s[1] == 'u';
    assert s[2..6] == Hex4(hi);
    assert s[6] == '\\' && s[7] == 'u';
    assert s[8..12] == Hex4(lo);
    assert s[12..] == rest;
  }

  /** Reading one escaped character back, whatever follows it. */
  lemma UnescapeChar(c: char, asciiOnly: bool, rest: string)
    ensures Unescape(EscapeChar(c, asciiOnly) + rest) == Prepend(c, Unescape(rest))
  {
    var s := EscapeChar(c, asciiOnly) + rest;
    if c == '"' || c == '\\' || c == '\U{0008}' || c == '\U{000C}' || c == '\n' || c == '\r' || c == '\t' {
      assert s[2..] == rest;
    } else if c < ' ' || (asciiOnly && c > '~' && c as int < 0x10000) {
      UnescapeBmp(c, rest);
    } else if asciiOnly && c > '~' {
      UnescapePair(c, rest);
    } else {
      assert s[1..] == rest;
    }
  }

  /** Escaping is lossless: reading the escaped text back gives the original
      string, for both serializers. */
  lemma {:induction false} UnescapeEscape(s: string, asciiOnly: bool)
    ensures Unescape(Escape(s, asciiOnly)) == Some(s)
  {
    if s != [] {
      UnescapeEscape(s[1..], asciiOnly);
      UnescapeChar(s[0], asciiOnly, Escape(s[1..], asciiOnly));
      assert [s[0]] + s[1..] == s;
    }
  }
}
