/** The Python agent's streaming helpers (`stream.py`): the token and
    sentinel frames, the two-frame error reply, and the line-by-line
    passthrough of the model's event stream. Lines arrive already decoded and
    split, without their terminators. */
module PyStream {
  import Json
  import Text
  import EventStream

  /** The message `sse_error` carries on a failed model call. */
  const ModelErrorMessage: string := "Sorry, I encountered an error contacting the model."

  /** `sse_token(token)`: `data: `, the envelope as `json.dumps` writes it, and
      the blank line that ends the event. */
  function SseToken(token: string): (frame: string)
    ensures frame == "data: " + ("{\"choices\": [{\"delta\": {\"content\": " + Json.Quote(token, true)
                                 + "}, \"index\": 0}]}") + "\n\n"
  {
    EventStream.EnvelopeDumps(token);
    EventStream.TokenFrame(token, Json.Dumps)
  }

  /** `sse_done()`: the sentinel frame. */
  function SseDone(): string {
    EventStream.DoneFrame
  }

  /** A client reads the sentinel frame as one `[DONE]` event. */
  lemma SseDoneEvents()
    ensures EventStream.Events(SseDone()) == ["[DONE]"]
  {
    EventStream.DoneFrameEvent("");
    assert EventStream.DoneFrame + "" == EventStream.DoneFrame;
  }

  /** `sse_error(message)`: the message's token frame, then the sentinel. */
  function SseError(message: string): seq<string> {
    [SseToken(message), SseDone()]
  }

  /** The error reply is two items, which a client reads as the message's
      envelope and then `[DONE]`. */
  lemma SseErrorEvents(message: string)
    ensures |SseError(message)| == 2
    ensures EventStream.Events(SseError(message)[0] + SseError(message)[1])
         == [Json.Serialize(EventStream.Envelope(message), Json.Dumps), "[DONE]"]
  {
    SseDoneEvents();
    TokenThenDone(message, SseDone());
  }

  /** A token frame followed by text read as `[DONE]` is read as the token's
      envelope and then `[DONE]` (a helper of `SseErrorEvents`). */
  lemma TokenThenDone(message: string, done: string)
    requires EventStream.Events(done) == ["[DONE]"]
    ensures EventStream.Events(SseToken(message) + done)
         == [Json.Serialize(EventStream.Envelope(message), Json.Dumps), "[DONE]"]
  {
    EventStream.TokenFrameEvent(message, Json.Dumps, done);
  }

  /** What `pipe_openai_stream` yields for the lines `iter_lines` produces:
      every line with a line feed appended. */
  function PipedItems(lines: seq<string>): seq<string> {
    seq(|lines|, i requires 0 <= i < |lines| => lines[i] + "\n")
  }

  /** `pipe_openai_stream(response)`: one item per upstream line, in order;
      the empty-line branch yields `"\n"`, which is the empty line plus its
      line feed, so every item is its line plus `"\n"` and blank lines are
      kept. */
  method PipeOpenaiStream(lines: seq<string>) returns (items: seq<string>)
    ensures items == PipedItems(lines)
  {
    items := [];
    for k := 0 to |lines|
      invariant |items| == k
      invariant forall i :: 0 <= i < k ==> items[i] == lines[i] + "\n"
    {
      var line := lines[k];
      if line != "" {
        items := items + [line + "\n"];
      } else {
        items := items + ["\n"];
      }
    }
  }

  /** Every piped item ends in a line feed, and, since `iter_lines` strips
      line terminators, none of them is the `[DONE]` sentinel frame that
      `sse_done` writes. */
  lemma PipedItemsShape(lines: seq<string>)
    requires forall line <- lines :: Text.Free(line, '\n')
    ensures forall item <- PipedItems(lines) :: item != [] && item[|item| - 1] == '\n'
    ensures SseDone() !in PipedItems(lines)
  {
    var items := PipedItems(lines);
    var done := SseDone();
    assert |done| == 14 && done[12] == '\n';
    forall i | 0 <= i < |items|
      ensures items[i] != done
    {
      assert lines[i] in lines;
      if |items[i]| == 14 {
        assert items[i][12] == lines[i][12] != '\n';
      }
    }
  }

  /** The piped items of consecutive stretches of lines are those stretches'
      items, one after the other. */
  lemma PipedItemsAppend(a: seq<string>, b: seq<string>)
    ensures PipedItems(a + b) == PipedItems(a) + PipedItems(b)
  {
  }
}
