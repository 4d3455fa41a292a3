/** The `text/event-stream` format of section 9.2 of the WHATWG HTML Living
    Standard (server-sent events), as far as the relay uses it: the frames it
    writes, and the standard's interpretation of a stream as the sequence of
    `data` payloads a client dispatches. */
module EventStream {
  import opened Wrappers
  import Json
  import Text

  /** The JSON body of one streamed token, in the shape of a chat-completion
      delta: `{"choices": [{"delta": {"content": token}, "index": 0}]}`. */
  function Envelope(token: string): Json.Json {
    Json.JObject([Json.Member("choices", Json.JArray([
      Json.JObject([
        Json.Member("delta", Json.JObject([Json.Member("content", Json.JString(token))])),
        Json.Member("index", Json.JNumber(0))])]))])
  }

  /** `data: <envelope>` followed by the blank line that ends the event. */
  function TokenFrame(token: string, st: Json.Style): string {
    "data: " + Json.Serialize(Envelope(token), st) + "\n\n"
  }

  /** The terminal sentinel event. */
  const DoneFrame: string := "data: [DONE]\n\n"

  /** The envelope as `JSON.stringify` writes it. */
  lemma EnvelopeStringify(token: string)
    ensures Json.Serialize(Envelope(token), Json.Stringify)
         == "{\"choices\":[{\"delta\":{\"content\":" + Json.Quote(token, false) + "},\"index\":0}]}"
  {
    EnvelopeText(token, Json.Stringify);
    MergeStringify(Json.Quote(token, false));
  }

  /** The envelope as `json.dumps` writes it. */
  lemma EnvelopeDumps(token: string)
    ensures Json.Serialize(Envelope(token), Json.Dumps)
         == "{\"choices\": [{\"delta\": {\"content\": " + Json.Quote(token, true) + "}, \"index\": 0}]}"
  {
    EnvelopeText(token, Json.Dumps);
    MergeDumps(Json.Quote(token, true));
  }

  /** The envelope's text in either style: its member names quoted as they
      are, its separators those of the style, and the token quoted by the
      style's escaping. */
  lemma EnvelopeText(token: string, st: Json.Style)
    ensures Json.Serialize(Envelope(token), st)
         == "{" + "\"choices\"" + st.nameSep + "[{" + "\"delta\"" + st.nameSep
            + "{" + "\"content\"" + st.nameSep + Json.Quote(token, st.asciiOnly) + "}"
            + st.itemSep + "\"index\"" + st.nameSep + "0}]}"
  {
    var a := st.asciiOnly;
    EnvelopeShape("choices", "delta", "content", "index", token, st);
    QuoteName("choices", "\"choices\"", a);
    QuoteName("delta", "\"delta\"", a);
    QuoteName("content", "\"content\"", a);
    QuoteName("index", "\"index\"", a);
    SubstituteNames(Json.Quote("choices", a), Json.Quote("delta", a), Json.Quote("content", a), Json.Quote("index", a),
      "\"choices\"", "\"delta\"", "\"content\"", "\"index\"", Json.Quote(token, a), st.nameSep, st.itemSep);
  }

  /** The envelope's member names are lower-case words, which both
      serializers quote without escaping. */
  lemma QuoteName(name: string, quoted: string, a: bool)
    requires || (name, quoted) == ("choices", "\"choices\"") || (name, quoted) == ("delta", "\"delta\"")
             || (name, quoted) == ("content", "\"content\"") || (name, quoted) == ("index", "\"index\"")
    ensures Json.Quote(name, a) == quoted
  {
    Json.QuoteWord(name, a);
  }

  /** The text of an envelope-shaped value with arbitrary member names. */
  lemma EnvelopeShape(n1: string, n2: string, n3: string, n4: string, token: string, st: Json.Style)
    ensures Json.Serialize(Json.JObject([Json.Member(n1, Json.JArray([
              Json.JObject([
                Json.Member(n2, Json.JObject([Json.Member(n3, Json.JString(token))])),
                Json.Member(n4, Json.JNumber(0))])]))]), st)
         == "{" + Json.Quote(n1, st.asciiOnly) + st.nameSep + "[{" + Json.Quote(n2, st.asciiOnly) + st.nameSep
            + "{" + Json.Quote(n3, st.asciiOnly) + st.nameSep + Json.Quote(token, st.asciiOnly) + "}"
            + st.itemSep + Json.Quote(n4, st.asciiOnly) + st.nameSep + "0}]}"
  {
    var a := st.asciiOnly;
    Json.SerializeZero(st);
    var inner := Json.JObject([Json.Member(n3, Json.JString(token))]);
    Json.SerializeObject1(n3, Json.JString(token), st);
    var choice := Json.JObject([Json.Member(n2, inner), Json.Member(n4, Json.JNumber(0))]);
    Json.SerializeObject2(n2, inner, n4, Json.JNumber(0), st);
    Json.SerializeArray1(choice, st);
    Json.SerializeObject1(n1, Json.JArray([choice]), st);
    Flatten(Json.Quote(n1, a), Json.Quote(n2, a), Json.Quote(n3, a), Json.Quote(n4, a), Json.Quote(token, a),
      st.nameSep, st.itemSep);
  }

  /** Line terminators of the format: LF, CR (and CR LF as one). */
  predicate IsEol(c: char) {
    c == '\n' || c == '\r'
  }

  /** Length of the first line of `s`: the index of its first line terminator,
      or `|s|` when there is none. */
  function LineLength(s: string): (n: nat)
    ensures n <= |s|
    ensures forall i :: 0 <= i < n ==> !IsEol(s[i])
    ensures n < |s| ==> IsEol(s[n])
  {
    if s == [] || IsEol(s[0]) then 0 else 1 + LineLength(s[1..])
  }

  /** Length of the line terminator at index `n`: 2 for CR LF, else 1. */
  function EolLength(s: string, n: nat): nat
    requires n < |s|
  {
    if s[n] == '\r' && n + 1 < |s| && s[n + 1] == '\n' then 2 else 1
  }

  /** Index of the first colon of `line`, or `|line|`. */
  function ColonIndex(line: string): (j: nat)
    ensures j <= |line|
    ensures forall i :: 0 <= i < j ==> line[i] != ':'
    ensures j < |line| ==> line[j] == ':'
  {
    if line == [] || line[0] == ':' then 0 else 1 + ColonIndex(line[1..])
  }

  /** What a non-empty line adds to the data buffer: for a `data` field its
      value (one leading space dropped) and a line feed; nothing for a comment
      (leading colon) or any other field. */
  function DataValue(line: string): Option<string>
    requires line != []
  {
    var j := ColonIndex(line);
    var field := line[..j];
    var raw := if j < |line| then line[j + 1..] else "";
    var value := if raw != [] && raw[0] == ' ' then raw[1..] else raw;
    if j == 0 || field != "data" then None else Some(value)
  }

  /** The payloads a client dispatches when it reads `s` with `data` already
      buffered: a blank line dispatches the buffer (without its final line
      feed) if it is not empty; an unterminated last line and an undispatched
      buffer are discarded at end of stream. */
  function Dispatch(s: string, data: string): seq<string>
    decreases |s|
  {
    var n := LineLength(s);
    if n == |s| then []
    else
      var line, rest := s[..n], s[n + EolLength(s, n)..];
      if line == [] then
        (if data == [] then [] else [data[..|data| - 1]]) + Dispatch(rest, [])
      else
        match DataValue(line)
        case Some(v) => Dispatch(rest, data + v + "\n")
        case None => Dispatch(rest, data)
  }

  /** The payloads of a whole stream. */
  function Events(s: string): seq<string> {
    Dispatch(s, [])
  }

  /** A `data:` frame whose payload holds no line terminator is dispatched as
      exactly one event carrying that payload, whatever follows it. */
  lemma DataFrameEvent(payload: string, rest: string)
    requires forall i :: 0 <= i < |payload| ==> !IsEol(payload[i])
    ensures Events("data: " + payload + "\n\n" + rest) == [payload] + Events(rest)
  {
    var line, t := "data: " + payload, "\n" + ("\n" + rest);
    assert "data: " + payload + "\n\n" + rest == line + t by {
      Text.Associate(line, "\n\n", rest);
      assert "\n\n" == "\n" + "\n";
      Text.Associate("\n", "\n", rest);
    }
    assert [] + payload + "\n" == payload + "\n" by {
      assert [] + payload == payload;
    }
    assert Dispatch(line + t, []) == Dispatch("\n" + rest, payload + "\n") by {
      assert t[1..] == "\n" + rest;
      DataLineValue(payload);
      DispatchLine(line, t, []);
    }
    assert Dispatch("\n" + rest, payload + "\n") == [payload] + Dispatch(rest, []) by {
      DispatchBlank("\n" + rest, payload + "\n");
      assert ("\n" + rest)[1..] == rest;
      assert (payload + "\n")[..|payload|] == payload;
    }
  }

  /** `data: v` is a data line with value `v`. */
  lemma DataLineValue(payload: string)
    ensures DataValue("data: " + payload) == Some(payload)
  {
    var line := "data: " + payload;
    assert line[..4] == "data" && line[4] == ':';
    assert line == "data" + line[4..];
    ColonIndexOf("data", line[4..]);
    assert line[5..] == " " + payload;
    assert (" " + payload)[1..] == payload;
  }

  /** A non-empty line followed by LF is interpreted as a line on its own. */
  lemma DispatchLine(line: string, t: string, data: string)
    requires line != [] && forall i :: 0 <= i < |line| ==> !IsEol(line[i])
    requires t != [] && t[0] == '\n'
    ensures Dispatch(line + t, data)
         == match DataValue(line)
            case Some(v) => Dispatch(t[1..], data + v + "\n")
            case None => Dispatch(t[1..], data)
  {
    var s := line + t;
    LineLengthOf(line, t);
    assert s[..|line|] == line;
    assert s[|line| + 1..] == t[1..];
  }

  /** A blank line dispatches the buffer. */
  lemma DispatchBlank(t: string, data: string)
    requires t != [] && t[0] == '\n'
    ensures Dispatch(t, data) == (if data == [] then [] else [data[..|data| - 1]]) + Dispatch(t[1..], [])
  {
    assert LineLength(t) == 0;
    assert t[..0] == [];
  }

  /** The first line of `line + t` is `line` when `line` has no terminator and `t` starts with LF. */
  lemma {:induction false} LineLengthOf(line: string, t: string)
    requires forall i :: 0 <= i < |line| ==> !IsEol(line[i])
    requires t != [] && t[0] == '\n'
    ensures LineLength(line + t) == |line|
    ensures EolLength(line + t, |line|) == 1
  {
    if line != [] {
      assert (line + t)[1..] == line[1..] + t;
      LineLengthOf(line[1..], t);
    }
  }

  /** The first colon of `name + t` is at `|name|` when `name` has none and `t` starts with one. */
  lemma {:induction false} ColonIndexOf(name: string, t: string)
    requires forall i :: 0 <= i < |name| ==> name[i] != ':'
    requires t != [] && t[0] == ':'
    ensures ColonIndex(name + t) == |name|
  {
    if name != [] {
      assert (name + t)[1..] == name[1..] + t;
      ColonIndexOf(name[1..], t);
    }
  }

  /** Nothing is dispatched from an empty stream. */
  lemma EventsEmpty()
    ensures Events("") == []
  {
  }

  /** A token frame is exactly one event, carrying the serialized envelope,
      whatever characters the token holds: the serializers escape every line
      terminator, so a token can never break the framing. */
  lemma TokenFrameEvent(token: string, st: Json.Style, rest: string)
    requires st == Json.Stringify || st == Json.Dumps
    ensures Events(TokenFrame(token, st) + rest) == [Json.Serialize(Envelope(token), st)] + Events(rest)
  {
    var payload := Json.Serialize(Envelope(token), st);
    Json.SerializePrintable(Envelope(token), st);
    assert forall i :: 0 <= i < |payload| ==> !IsEol(payload[i]);
    DataFrameEvent(payload, rest);
  }

  /** The sentinel frame is one event carrying `[DONE]`. */
  lemma DoneFrameEvent(rest: string)
    ensures Events(DoneFrame + rest) == ["[DONE]"] + Events(rest)
  {
    assert DoneFrame + rest == "data: " + "[DONE]" + "\n\n" + rest;
    DataFrameEvent("[DONE]", rest);
  }

  // Regrouping of string concatenations, used by the envelope proofs above.

  /** Regrouping of the nested envelope text (a helper of `EnvelopeShape`). */
  lemma Flatten(q1: string, q2: string, q3: string, q4: string, t: string, ns: string, sep: string)
    ensures "{" + q1 + ns + ("[" + ("{" + q2 + ns + ("{" + q3 + ns + t + "}") + sep + q4 + ns + "0" + "}") + "]") + "}"
         == "{" + q1 + ns + "[{" + q2 + ns + "{" + q3 + ns + t + "}" + sep + q4 + ns + "0}]}"
  {
  }

  /** Equal names give equal envelope texts (a helper of `EnvelopeText`). */
  lemma SubstituteNames(q1: string, q2: string, q3: string, q4: string,
                        l1: string, l2: string, l3: string, l4: string, t: string, ns: string, sep: string)
    requires q1 == l1 && q2 == l2 && q3 == l3 && q4 == l4
    ensures "{" + q1 + ns + "[{" + q2 + ns + "{" + q3 + ns + t + "}" + sep + q4 + ns + "0}]}"
         == "{" + l1 + ns + "[{" + l2 + ns + "{" + l3 + ns + t + "}" + sep + l4 + ns + "0}]}"
  {
  }

  /** The envelope text with `JSON.stringify`'s separators written out (a
      helper of `EnvelopeStringify`). */
  lemma MergeStringify(t: string)
    ensures "{" + "\"choices\"" + ":" + "[{" + "\"delta\"" + ":" + "{" + "\"content\"" + ":" + t + "}"
            + "," + "\"index\"" + ":" + "0}]}"
         == "{\"choices\":[{\"delta\":{\"content\":" + t + "},\"index\":0}]}"
  {
    var head := "{" + "\"choices\"" + ":" + "[{" + "\"delta\"" + ":" + "{" + "\"content\"" + ":";
    assert head == "{\"choices\":[{\"delta\":{\"content\":";
    RegroupTail(head + t, "}", ",", "\"index\"", ":", "0}]}");
    assert "}" + "," + "\"index\"" + ":" + "0}]}" == "},\"index\":0}]}";
  }

  /** The envelope text with `json.dumps`'s separators written out (a helper
      of `EnvelopeDumps`). */
  lemma MergeDumps(t: string)
    ensures "{" + "\"choices\"" + ": " + "[{" + "\"delta\"" + ": " + "{" + "\"content\"" + ": " + t + "}"
            + ", " + "\"index\"" + ": " + "0}]}"
         == "{\"choices\": [{\"delta\": {\"content\": " + t + "}, \"index\": 0}]}"
  {
    var head := "{" + "\"choices\"" + ": " + "[{" + "\"delta\"" + ": " + "{" + "\"content\"" + ": ";
    assert head == "{\"choices\": [{\"delta\": {\"content\": ";
    RegroupTail(head + t, "}", ", ", "\"index\"", ": ", "0}]}");
    assert "}" + ", " + "\"index\"" + ": " + "0}]}" == "}, \"index\": 0}]}";
  }

  /** Regrouping of the text after the token (a helper of the merges). */
  lemma RegroupTail(x: string, a: string, b: string, c: string, d: string, e: string)
    ensures x + a + b + c + d + e == x + (a + b + c + d + e)
  {
    Text.Associate(x, a + b + c + d, e);
    Text.Associate(x, a + b + c, d);
    Text.Associate(x, a + b, c);
    Text.Associate(x, a, b);
  }
}
