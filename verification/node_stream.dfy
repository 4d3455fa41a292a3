/** The Node agent's streaming helpers (`stream.ts`): an Express response
    that receives headers, then body writes, then its end; the reader of the
    model's response body; and `startSSE`, `writeToken`, `endSSE` and
    `pipeStream`, which drive them. Chunks arrive already decoded to text. */
module NodeStream {
  import Json
  import Text
  import EventStream

  /** The part of Express's `Response` the relay touches: status, headers,
      whether the headers have gone out, every `write` in order, and whether
      `end` was called. */
  class ServerResponse {
    var statusCode: int
    var headers: map<string, string>
    var headersSent: bool
    var writes: seq<string>
    var finished: bool

    /** A response before the handler runs. */
    constructor ()
      ensures statusCode == 200 && headers == map[] && !headersSent && writes == [] && !finished
    {
      statusCode, headers, headersSent, writes, finished := 200, map[], false, [], false;
    }

    /** `res.status(code)`. */
    method Status(code: int)
      requires !headersSent
      modifies this
      ensures statusCode == code
      ensures headers == old(headers) && headersSent == old(headersSent)
      ensures writes == old(writes) && finished == old(finished)
    {
      statusCode := code;
    }

    /** `res.setHeader(name, value)`: only possible while the headers are
      unsent (Node throws otherwise). */
    method SetHeader(name: string, value: string)
      requires !headersSent
      modifies this
      ensures headers == old(headers)[name := value]
      ensures statusCode == old(statusCode) && headersSent == old(headersSent)
      ensures writes == old(writes) && finished == old(finished)
    {
      headers := headers[name := value];
    }

    /** `res.flushHeaders()`: the status line and headers go out now. */
    method FlushHeaders()
      modifies this
      ensures headersSent
      ensures statusCode == old(statusCode) && headers == old(headers)
      ensures writes == old(writes) && finished == old(finished)
    {
      headersSent := true;
    }

    /** `res.write(chunk)`: sends the headers if they are unsent, then the chunk. */
    method Write(chunk: string)
      requires !finished
      modifies this
      ensures writes == old(writes) + [chunk] && headersSent
      ensures statusCode == old(statusCode) && headers == old(headers) && !finished
    {
      writes := writes + [chunk];
      headersSent := true;
    }

    /** `res.end()`: nothing can be written afterwards. */
    method End()
      requires !finished
      modifies this
      ensures finished && headersSent
      ensures statusCode == old(statusCode) && headers == old(headers) && writes == old(writes)
    {
      finished := true;
      headersSent := true;
    }

    /** `res.json(value)`: a JSON content type unless one is set, the
      serialized value as the whole body, and the end of the response. */
    method SendJson(value: Json.Json)
      requires !headersSent && !finished
      modifies this
      ensures headers == if "Content-Type" in old(headers) then old(headers)
                         else old(headers)["Content-Type" := JsonContentType]
      ensures writes == old(writes) + [Json.Serialize(value, Json.Stringify)]
      ensures finished && headersSent && statusCode == old(statusCode)
    {
      if "Content-Type" !in headers {
        SetHeader("Content-Type", JsonContentType);
      }
      Write(Json.Serialize(value, Json.Stringify));
      End();
    }
  }

  /** The content type Express gives a JSON body. */
  const JsonContentType: string := "application/json; charset=utf-8"

  /** `headers` with the four event-stream headers `startSSE` sets. */
  function WithSseHeaders(headers: map<string, string>): map<string, string> {
    headers["Content-Type" := "text/event-stream"]["Cache-Control" := "no-cache"]
           ["Transfer-Encoding" := "chunked"]["X-Accel-Buffering" := "no"]
  }

  /** The event-stream headers alone. */
  const SseHeaders: map<string, string> := WithSseHeaders(map[])

  /** `startSSE(res)`: the four event-stream headers, flushed; no body byte
      is written. */
  method StartSse(res: ServerResponse)
    requires !res.headersSent
    modifies res
    ensures res.headers == WithSseHeaders(old(res.headers)) && res.headersSent
    ensures res.statusCode == old(res.statusCode) && res.writes == old(res.writes) && res.finished == old(res.finished)
  {
    res.SetHeader("Content-Type", "text/event-stream");
    res.SetHeader("Cache-Control", "no-cache");
    res.SetHeader("Transfer-Encoding", "chunked");
    res.SetHeader("X-Accel-Buffering", "no");
    res.FlushHeaders();
  }

  /** `writeToken(res, token)`: one write, the token frame. */
  method WriteToken(res: ServerResponse, token: string)
    requires !res.finished
    modifies res
    ensures res.writes == old(res.writes) + [EventStream.TokenFrame(token, Json.Stringify)]
    ensures res.headersSent && !res.finished
    ensures res.statusCode == old(res.statusCode) && res.headers == old(res.headers)
  {
    var chunk := Json.Serialize(EventStream.Envelope(token), Json.Stringify);
    res.Write("data: " + chunk + "\n\n");
  }

  /** `endSSE(res)`: the sentinel frame, then the end of the response. */
  method EndSse(res: ServerResponse)
    requires !res.finished
    modifies res
    ensures res.writes == old(res.writes) + [EventStream.DoneFrame]
    ensures res.finished && res.headersSent
    ensures res.statusCode == old(res.statusCode) && res.headers == old(res.headers)
  {
    res.Write("data: [DONE]\n\n");
    res.End();
  }

  /** What one `reader.read()` settles to. */
  datatype ReadResult = Chunk(text: string) | Done | ReadFailed

  /** The model's response body as its reader sees it: the decoded text of
      each chunk in order, and whether the read after the last chunk rejects
      (a broken connection) instead of reporting the end. */
  class Upstream {
    const chunks: seq<string>
    const failsAtEnd: bool
    var position: nat
    var locked: bool

    ghost predicate Valid()
      reads this
    {
      position <= |chunks|
    }

    /** A body not yet read. */
    constructor (chunks: seq<string>, failsAtEnd: bool)
      ensures this.chunks == chunks && this.failsAtEnd == failsAtEnd
      ensures Valid() && position == 0 && !locked
    {
      this.chunks, this.failsAtEnd := chunks, failsAtEnd;
      position, locked := 0, false;
    }

    /** `getReader()`: locks the stream to one reader. */
    method GetReader()
      requires Valid() && !locked
      modifies this
      ensures Valid() && locked && position == old(position)
    {
      locked := true;
    }

    /** `reader.read()`: the next chunk, then the end or the failure. */
    method Read() returns (r: ReadResult)
      requires Valid() && locked
      modifies this
      ensures Valid() && locked
      ensures old(position) < |chunks| ==> r == Chunk(chunks[old(position)]) && position == old(position) + 1
      ensures old(position) == |chunks| ==> r == (if failsAtEnd then ReadFailed else Done) && position == old(position)
    {
      if position < |chunks| {
        r := Chunk(chunks[position]);
        position := position + 1;
      } else if failsAtEnd {
        r := ReadFailed;
      } else {
        r := Done;
      }
    }

    /** `reader.releaseLock()`. */
    method ReleaseLock()
      requires Valid() && locked
      modifies this
      ensures Valid() && !locked && position == old(position)
    {
      locked := false;
    }
  }

  /** The writes for one `\n`-separated piece of a chunk: the piece and its
      line feed when its `trim()` is non-empty, nothing otherwise. */
  function Forwarded(piece: string): seq<string> {
    if Text.Trim(piece) != "" then [piece + "\n"] else []
  }

  /** The writes for the pieces of one chunk, in order. */
  function ForwardLines(pieces: seq<string>): seq<string> {
    if pieces == [] then []
    else ForwardLines(pieces[..|pieces| - 1]) + Forwarded(pieces[|pieces| - 1])
  }

  /** The writes `pipeStream` makes for one decoded chunk: its forwarded
      lines, then one `"\n"`. */
  function ChunkWrites(text: string): seq<string> {
    ForwardLines(Text.Split(text, '\n')) + ["\n"]
  }

  /** The writes `pipeStream` makes for a sequence of chunks. */
  function PipeWrites(chunks: seq<string>): seq<string> {
    if chunks == [] then [] else PipeWrites(chunks[..|chunks| - 1]) + ChunkWrites(chunks[|chunks| - 1])
  }

  /** One pass of `pipeStream`'s outer loop after a chunk arrives: split
      the decoded text on `\n`, write each non-blank piece with its line
      feed, then a lone `"\n"`. */
  method ForwardChunk(res: ServerResponse, text: string)
    requires !res.finished
    modifies res
    ensures res.writes == old(res.writes) + ChunkWrites(text) && res.headersSent
    ensures res.statusCode == old(res.statusCode) && res.headers == old(res.headers) && !res.finished
  {
    ghost var start := res.writes;
    var pieces := Text.Split(text, '\n');
    assert pieces[..0] == [];
    for i := 0 to |pieces|
      invariant res.writes == start + ForwardLines(pieces[..i])
      invariant res.statusCode == old(res.statusCode) && res.headers == old(res.headers) && !res.finished
    {
      ghost var done := ForwardLines(pieces[..i]);
      ForwardPiece(res, pieces[i]);
      ForwardLinesStep(pieces, i);
      Text.Associate(start, done, Forwarded(pieces[i]));
    }
    assert pieces[..|pieces|] == pieces;
    ghost var lines := ForwardLines(pieces);
    res.Write("\n");
    Text.Associate(start, lines, ["\n"]);
  }

  /** The inner step of `pipeStream`: write one piece with its line feed
      when its `trim()` is non-empty. */
  method ForwardPiece(res: ServerResponse, piece: string)
    requires !res.finished
    modifies res
    ensures res.writes == old(res.writes) + Forwarded(piece)
    ensures res.headersSent == (old(res.headersSent) || Forwarded(piece) != [])
    ensures res.statusCode == old(res.statusCode) && res.headers == old(res.headers) && !res.finished
  {
    if Text.Trim(piece) != "" {
      res.Write(piece + "\n");
    }
  }

  /** The writes for the first `k + 1` pieces extend those for the first `k`. */
  lemma ForwardLinesStep(pieces: seq<string>, k: nat)
    requires k < |pieces|
    ensures ForwardLines(pieces[..k + 1]) == ForwardLines(pieces[..k]) + Forwarded(pieces[k])
  {
    assert pieces[..k + 1][..k] == pieces[..k];
  }

  /** The writes for the first `k + 1` chunks extend those for the first `k`. */
  lemma PipeWritesStep(chunks: seq<string>, k: nat)
    requires k < |chunks|
    ensures PipeWrites(chunks[..k + 1]) == PipeWrites(chunks[..k]) + ChunkWrites(chunks[k])
  {
    assert chunks[..k + 1][..k] == chunks[..k];
  }

  /** `pipeStream(llmStream, res)`: forwards every chunk's non-blank lines and
      a separator per chunk, and releases the reader's lock on both exits. It
      resolves (`ok`) when the body ends and rejects when a read fails. */
  method PipeStream(upstream: Upstream, res: ServerResponse) returns (ok: bool)
    requires upstream.Valid() && upstream.position == 0 && !upstream.locked
    requires !res.finished
    modifies upstream, res
    ensures upstream.Valid() && !upstream.locked && upstream.position == |upstream.chunks|
    ensures ok == !upstream.failsAtEnd
    ensures res.writes == old(res.writes) + PipeWrites(upstream.chunks)
    ensures res.headersSent == (old(res.headersSent) || upstream.chunks != [])
    ensures res.statusCode == old(res.statusCode) && res.headers == old(res.headers) && !res.finished
  {
    ghost var chunks, start := upstream.chunks, res.writes;
    upstream.GetReader();
    assert chunks[..0] == [];
    while true
      invariant upstream.Valid() && upstream.locked
      invariant res.writes == start + PipeWrites(chunks[..upstream.position])
      invariant res.headersSent == (old(res.headersSent) || upstream.position > 0)
      invariant res.statusCode == old(res.statusCode) && res.headers == old(res.headers) && !res.finished
      decreases |chunks| - upstream.position
    {
      ghost var at := upstream.position;
      var r := upstream.Read();
      if r.Done? {
        ok := true;
        break;
      } else if r.ReadFailed? {
        ok := false;
        break;
      }
      assert r.text == chunks[at] && upstream.position == at + 1;
      ghost var done := PipeWrites(chunks[..at]);
      assert res.writes == start + done;
      ForwardChunk(res, r.text);
      assert res.writes == start + done + ChunkWrites(chunks[at]);
      PipeWritesStep(chunks, at);
      Text.Associate(start, done, ChunkWrites(chunks[at]));
      assert res.writes == start + PipeWrites(chunks[..at + 1]);
    }
    assert chunks[..upstream.position] == chunks;
    upstream.ReleaseLock();
  }

  /** Piping chunk by chunk: the writes for `a + b` are those for `a`, then
      those for `b`. */
  lemma {:induction false} PipeWritesAppend(a: seq<string>, b: seq<string>)
    ensures PipeWrites(a + b) == PipeWrites(a) + PipeWrites(b)
  {
    if b == [] {
      assert a + b == a;
    } else {
      var n := |b| - 1;
      assert (a + b)[..|a + b| - 1] == a + b[..n];
      assert (a + b)[|a + b| - 1] == b[n];
      PipeWritesAppend(a, b[..n]);
      calc {
        PipeWrites(a + b);
        PipeWrites(a + b[..n]) + ChunkWrites(b[n]);
        PipeWrites(a) + PipeWrites(b[..n]) + ChunkWrites(b[n]);
        { Text.Associate(PipeWrites(a), PipeWrites(b[..n]), ChunkWrites(b[n])); }
        PipeWrites(a) + PipeWrites(b);
      }
    }
  }

  /** A forwarded line: a non-blank text without line feeds, then `"\n"`. */
  predicate ForwardedLine(w: string) {
    |w| >= 2 && w[|w| - 1] == '\n' && Text.Free(w[..|w| - 1], '\n') && !Text.IsBlank(w[..|w| - 1])
  }

  /** Pieces of a split chunk hold no line feed, so every write for them is a
      forwarded line. */
  lemma {:induction false} ForwardLinesShape(pieces: seq<string>)
    requires forall p <- pieces :: Text.Free(p, '\n')
    ensures forall w <- ForwardLines(pieces) :: ForwardedLine(w)
  {
    if pieces != [] {
      var init, last := pieces[..|pieces| - 1], pieces[|pieces| - 1];
      assert forall w <- ForwardLines(init) :: ForwardedLine(w) by {
        ForwardLinesShape(init);
      }
      assert forall w <- Forwarded(last) :: ForwardedLine(w) by {
        ForwardedShape(last);
      }
      assert ForwardLines(pieces) == ForwardLines(init) + Forwarded(last);
    }
  }

  /** A piece without a line feed is forwarded, if at all, as a forwarded line. */
  lemma ForwardedShape(piece: string)
    requires Text.Free(piece, '\n')
    ensures forall w <- Forwarded(piece) :: ForwardedLine(w)
  {
    if Text.Trim(piece) != "" {
      Text.TrimEmptyIffBlank(piece);
      var w := piece + "\n";
      assert w[..|w| - 1] == piece;
      assert |piece| >= 1;
    }
  }

  /** Every write `pipeStream` makes is either the separator `"\n"` or a
      forwarded line: nothing empty or whitespace-only is forwarded, and no
      forwarded line holds a line feed before its terminator. */
  lemma {:induction false} PipeWritesShape(chunks: seq<string>)
    ensures forall w <- PipeWrites(chunks) :: w == "\n" || ForwardedLine(w)
  {
    if chunks != [] {
      PipeWritesShape(chunks[..|chunks| - 1]);
      ForwardLinesShape(Text.Split(chunks[|chunks| - 1], '\n'));
    }
  }

  /** Exactly one separator `"\n"` is written per chunk read. */
  lemma {:induction false} SeparatorCount(chunks: seq<string>)
    ensures multiset(PipeWrites(chunks))["\n"] == |chunks|
  {
    if chunks != [] {
      var init, last := chunks[..|chunks| - 1], chunks[|chunks| - 1];
      SeparatorCount(init);
      ChunkSeparator(last);
      assert multiset(PipeWrites(chunks)) == multiset(PipeWrites(init)) + multiset(ChunkWrites(last));
    }
  }

  /** One chunk's writes hold exactly one separator. */
  lemma ChunkSeparator(text: string)
    ensures multiset(ChunkWrites(text))["\n"] == 1
  {
    var lines := ForwardLines(Text.Split(text, '\n'));
    assert "\n" !in lines by {
      ForwardLinesShape(Text.Split(text, '\n'));
    }
    assert multiset(lines)["\n"] == 0;
    assert multiset(ChunkWrites(text)) == multiset(lines) + multiset{"\n"};
  }

  /** A chunk holding one non-blank line and no line feed is forwarded as
      that line and the separator. */
  lemma LineChunk(line: string)
    requires Text.Free(line, '\n') && !Text.IsBlank(line)
    ensures ChunkWrites(line) == [line + "\n", "\n"]
  {
    Text.SplitFree(line, '\n');
    assert ForwardLines([line]) == [line + "\n"] by {
      Text.TrimEmptyIffBlank(line);
      assert [line][..0] == [];
    }
  }

  /** A chunk holding one non-blank line ended by a blank line is forwarded
      as that line and the separator: the two empty pieces are dropped. */
  lemma EventChunk(line: string)
    requires Text.Free(line, '\n') && !Text.IsBlank(line)
    ensures ChunkWrites(line + "\n\n") == [line + "\n", "\n"]
  {
    SplitEvent(line);
    assert Forwarded(line) == [line + "\n"] by {
      Text.TrimEmptyIffBlank(line);
    }
    assert Forwarded("") == [];
    assert ForwardLines([line]) == [line + "\n"] by {
      assert [line][..0] == [];
    }
    assert ForwardLines([line, ""]) == [line + "\n"] by {
      assert [line, ""][..1] == [line];
    }
    assert ForwardLines([line, "", ""]) == [line + "\n"] by {
      assert [line, "", ""][..2] == [line, ""];
    }
  }

  /** A line ended by a blank line splits into the line and two empty pieces. */
  lemma SplitEvent(line: string)
    requires Text.Free(line, '\n')
    ensures Text.Split(line + "\n\n", '\n') == [line, "", ""]
  {
    assert line + "\n\n" == line + ['\n'] + ("" + ['\n'] + "");
    Text.SplitAt(line, "" + ['\n'] + "", '\n');
    Text.SplitAt("", "", '\n');
  }

  /** A chunk that carries exactly one complete `data` event is forwarded as
      that event: its line, then the separator that ends the event. */
  lemma ForwardCompleteEvent(value: string)
    requires Text.Free(value, '\n')
    ensures ChunkWrites("data: " + value + "\n\n") == ["data: " + value + "\n", "\n"]
  {
    var line := "data: " + value;
    assert Text.Free(line, '\n');
    assert !Text.IsJsWhitespace(line[0]);
    EventChunk(line);
  }

  /** Splitting is per chunk, so the output depends on where the upstream
      body was cut: a line cut in two is forwarded as two lines, each
      followed by a separator, where the uncut line gives one. */
  lemma ChunkBoundariesMatter(x: string, y: string)
    requires Text.Free(x, '\n') && !Text.IsBlank(x)
    requires Text.Free(y, '\n') && !Text.IsBlank(y)
    ensures PipeWrites([x + y]) == [x + y + "\n", "\n"]
    ensures PipeWrites([x, y]) == [x + "\n", "\n", y + "\n", "\n"]
  {
    JoinedLine(x, y);
    CutLine(x, y);
  }

  /** The uncut line of `ChunkBoundariesMatter`. */
  lemma JoinedLine(x: string, y: string)
    requires Text.Free(x, '\n') && !Text.IsBlank(x)
    requires Text.Free(y, '\n')
    ensures PipeWrites([x + y]) == [x + y + "\n", "\n"]
  {
    Text.NotBlankConcat(x, y);
    OneLineChunk(x + y);
  }

  /** The cut line of `ChunkBoundariesMatter`. */
  lemma CutLine(x: string, y: string)
    requires Text.Free(x, '\n') && !Text.IsBlank(x)
    requires Text.Free(y, '\n') && !Text.IsBlank(y)
    ensures PipeWrites([x, y]) == [x + "\n", "\n", y + "\n", "\n"]
  {
    assert PipeWrites([x, y]) == PipeWrites([x]) + ChunkWrites(y) by {
      assert [x, y][..1] == [x];
    }
    OneLineChunk(x);
    LineChunk(y);
    assert [x + "\n", "\n"] + [y + "\n", "\n"] == [x + "\n", "\n", y + "\n", "\n"];
  }

  /** A body of one chunk holding one non-blank line is piped as that line
      and the separator. */
  lemma OneLineChunk(line: string)
    requires Text.Free(line, '\n') && !Text.IsBlank(line)
    ensures PipeWrites([line]) == [line + "\n", "\n"]
  {
    LineChunk(line);
    PipeWritesOne(line);
  }

  /** A body of one chunk is piped as that chunk's writes. */
  lemma PipeWritesOne(chunk: string)
    ensures PipeWrites([chunk]) == ChunkWrites(chunk)
  {
    assert [chunk][..0] == [];
  }
}
