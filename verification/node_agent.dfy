/** The Node agent's `POST /` handler (`index.ts`): check the signature
    headers, verify the request, build the model's message list, start the
    event stream, call the model and relay its answer or an apology, and end
    the stream. The key endpoint, the signature check, the user lookup, the
    model and the environment are inputs. */
module NodeAgent {
  import opened Wrappers
  import opened KeyStore
  import Json
  import Text
  import EventStream
  import NodeVerify
  import NodeStream
  import opened Relay

  /** The agent's persona: three lines joined by line feeds. */
  const SystemPrompt: string :=
    "You are a helpful assistant built with GitHub Copilot Extensions.\n"
    + "You have deep knowledge of software development and GitHub.\n"
    + "Be concise, accurate, and friendly."

  /** The apology for a model that could not be reached. */
  const ContactError: string := "Sorry, I encountered an error contacting the model."

  /** The apology for a model that answered with an error or no body. */
  const ModelError: string := "Sorry, the model returned an error."

  /** What the handler reads from the request: the two signature headers,
      the user's token header, the raw body that the JSON parser kept (absent
      when the parser did not run), and the parsed body's `messages`. */
  datatype Request = Request(keyId: Option<string>, signature: Option<string>, githubToken: Option<string>,
                             rawBody: Option<seq<byte>>, messages: Option<seq<Message>>)

  /** The model's response body: its decoded chunks, and whether reading
      fails after them. */
  datatype ModelBody = ModelBody(chunks: seq<string>, failsAtEnd: bool)

  /** What `fetch` reports for the model request. */
  datatype ModelResponse =
    | ModelUnreachable
    | ModelAnswered(status: int, body: Option<ModelBody>)

  /** Everything outside the handler that decides what it does. */
  datatype World = World(keys: KeyFetch, ecdsa: NodeVerify.EcdsaCheck, user: UserLookup,
                         model: ModelResponse, env: Env)

  /** A header value JavaScript treats as true: present and not empty. */
  predicate Truthy(s: Option<string>) {
    s.Some? && s.value != ""
  }

  /** Both signature headers are non-empty and the raw body was kept. A kept
      body is a `Buffer`, which is truthy even when empty. */
  predicate HasCredentials(req: Request) {
    Truthy(req.keyId) && Truthy(req.signature) && req.rawBody.Some?
  }

  /** The request passes signature verification. */
  predicate Verified(req: Request, world: World) {
    && HasCredentials(req)
    && NodeVerify.VerifySignature(req.rawBody.value, req.keyId.value, req.signature.value,
                                  world.keys, world.ecdsa) == Pass
  }

  /** The context note: the user's login when a token was sent and the
      lookup answered ok with a JSON body; a missing `login` prints as
      `undefined`. Every failure leaves the note empty. */
  function ContextNote(token: Option<string>, user: UserLookup): (note: string)
    ensures note != "" <==> Truthy(token) && user.LookupAnswered? && NodeVerify.IsOk(user.status) && user.body.Some?
    ensures note != "" ==> note == LoginNote(user.body.value.login.GetOr("undefined"))
  {
    if !Truthy(token) then ""
    else
      match user
      case LookupRaised => ""
      case LookupAnswered(status, body) =>
        if NodeVerify.IsOk(status) && body.Some? then LoginNote(body.value.login.GetOr("undefined")) else ""
  }

  /** `githubToken ?? process.env.LLM_API_KEY ?? ''`: a sent token wins even
      when it is empty. */
  function ApiKey(token: Option<string>, envKey: Option<string>): string {
    match token
    case Some(t) => t
    case None => envKey.GetOr("")
  }

  /** The model request the handler sends for `req`. */
  function RequestFor(req: Request, world: World): ChatRequest {
    var note := ContextNote(req.githubToken, world.user);
    ModelRequest(world.env, ApiKey(req.githubToken, world.env.apiKey),
                 Assemble(SystemPrompt + note, req.messages.GetOr([])))
  }

  /** The calls of a verified request, in order: the key fetch, the user
      lookup with the sent token when one was sent, then the stream start
      and, after it, the model call; nothing starts the stream or calls the
      model earlier. */
  function Steps(req: Request, world: World): (calls: seq<Call>)
    ensures |calls| == (if Truthy(req.githubToken) then 4 else 3) && calls[0] == FetchKeys
    ensures calls[|calls| - 2] == StartStream && calls[|calls| - 1] == CallModel(RequestFor(req, world))
    ensures forall i :: 0 <= i < |calls| - 2 ==> !calls[i].CallModel? && !calls[i].StartStream?
    ensures (exists t :: LookupUser(t) in calls) <==> Truthy(req.githubToken)
    ensures forall t :: LookupUser(t) in calls ==> Truthy(req.githubToken) && t == req.githubToken.value
  {
    var lookup := if Truthy(req.githubToken) then [LookupUser(req.githubToken.value)] else [];
    var calls := [FetchKeys] + lookup + [StartStream, CallModel(RequestFor(req, world))];
    assert Truthy(req.githubToken) ==> calls[1] == LookupUser(req.githubToken.value);
    calls
  }

  /** The body writes after the stream has started: an apology and the
      sentinel when the model is unreachable, answers with a non-ok status or
      has no body; otherwise the piped chunks and, if reading did not fail,
      the sentinel. */
  function StreamWrites(model: ModelResponse): seq<string> {
    match model
    case ModelUnreachable =>
      [EventStream.TokenFrame(ContactError, Json.Stringify), EventStream.DoneFrame]
    case ModelAnswered(status, body) =>
      if !NodeVerify.IsOk(status) || body.None? then
        [EventStream.TokenFrame(ModelError, Json.Stringify), EventStream.DoneFrame]
      else
        NodeStream.PipeWrites(body.value.chunks) + (if body.value.failsAtEnd then [] else [EventStream.DoneFrame])
  }

  /** The handler ends the response: every path except a failed read of the
      model's body, after which `pipeStream` rejects and `endSSE` is never
      reached. */
  predicate Settles(model: ModelResponse) {
    !(model.ModelAnswered? && NodeVerify.IsOk(model.status) && model.body.Some? && model.body.value.failsAtEnd)
  }

  /** `app.post('/', ...)`: 400 without credentials and 401 without a valid
      signature, neither starting the stream; otherwise status 200 with the
      event-stream headers, the stream writes for the model's outcome, and
      the end of the response when the handler settles. `calls` records the
      external calls in order. */
  method HandlePost(req: Request, world: World, res: NodeStream.ServerResponse) returns (calls: seq<Call>)
    requires res.statusCode == 200 && res.headers == map[] && !res.headersSent
    requires res.writes == [] && !res.finished
    modifies res
    ensures res.headersSent
    ensures !HasCredentials(req) ==>
              && calls == [] && res.statusCode == 400 && res.finished
              && res.headers == map["Content-Type" := NodeStream.JsonContentType]
              && res.writes == [Json.Serialize(ErrorJson("Missing signature headers"), Json.Stringify)]
    ensures HasCredentials(req) && !Verified(req, world) ==>
              && calls == [FetchKeys] && res.statusCode == 401 && res.finished
              && res.headers == map["Content-Type" := NodeStream.JsonContentType]
              && res.writes == [Json.Serialize(ErrorJson("Unauthorized"), Json.Stringify)]
    ensures Verified(req, world) ==>
              && calls == Steps(req, world) && res.statusCode == 200
              && res.headers == NodeStream.SseHeaders
              && res.writes == StreamWrites(world.model)
              && res.finished == Settles(world.model)
  {
    if !(Truthy(req.keyId) && Truthy(req.signature) && req.rawBody.Some?) {
      Reject(res, 400, "Missing signature headers");
      return [];
    }
    calls := [FetchKeys];
    var verdict := NodeVerify.VerifySignature(req.rawBody.value, req.keyId.value, req.signature.value,
                                              world.keys, world.ecdsa);
    if verdict.Fail? {
      Reject(res, 401, "Unauthorized");
      return;
    }

    var messages := req.messages.GetOr([]);
    var githubToken := req.githubToken;
    if Truthy(githubToken) {
      calls := calls + [LookupUser(githubToken.value)];
    }
    var contextNote := ContextNote(githubToken, world.user);
    var llmMessages := Assemble(SystemPrompt + contextNote, messages);

    NodeStream.StartSse(res);
    calls := calls + [StartStream];

    var llmApiKey := ApiKey(githubToken, world.env.apiKey);
    calls := calls + [CallModel(ModelRequest(world.env, llmApiKey, llmMessages))];
    assert calls == Steps(req, world);
    RelayModel(world.model, res);
  }

  /** An early JSON error response: status `code` and `{ error: message }`. */
  method Reject(res: NodeStream.ServerResponse, code: int, message: string)
    requires res.headers == map[] && !res.headersSent && res.writes == [] && !res.finished
    modifies res
    ensures res.statusCode == code && res.finished && res.headersSent
    ensures res.headers == map["Content-Type" := NodeStream.JsonContentType]
    ensures res.writes == [Json.Serialize(ErrorJson(message), Json.Stringify)]
  {
    res.Status(code);
    res.SendJson(ErrorJson(message));
  }

  /** The model call's outcome on a started stream: an apology and the end
      for an unreachable or failing model, otherwise the piped body and, when
      reading it did not fail, the end. */
  method RelayModel(model: ModelResponse, res: NodeStream.ServerResponse)
    requires res.headersSent && !res.finished
    modifies res
    ensures res.statusCode == old(res.statusCode) && res.headers == old(res.headers)
    ensures res.writes == old(res.writes) + StreamWrites(model)
    ensures res.finished == Settles(model) && res.headersSent
  {
    if model.ModelUnreachable? {
      Apologize(res, ContactError);
    } else if !NodeVerify.IsOk(model.status) || model.body.None? {
      Apologize(res, ModelError);
    } else {
      ghost var before := res.writes;
      var upstream := new NodeStream.Upstream(model.body.value.chunks, model.body.value.failsAtEnd);
      var ok := NodeStream.PipeStream(upstream, res);
      ghost var piped := NodeStream.PipeWrites(model.body.value.chunks);
      if ok {
        NodeStream.EndSse(res);
        Text.Associate(before, piped, [EventStream.DoneFrame]);
      } else {
        assert piped + [] == piped;
      }
    }
  }

  /** An apology on a started stream: its token frame, then the end. */
  method Apologize(res: NodeStream.ServerResponse, apology: string)
    requires res.headersSent && !res.finished
    modifies res
    ensures res.statusCode == old(res.statusCode) && res.headers == old(res.headers)
    ensures res.writes == old(res.writes) + [EventStream.TokenFrame(apology, Json.Stringify), EventStream.DoneFrame]
    ensures res.finished && res.headersSent
  {
    NodeStream.WriteToken(res, apology);
    NodeStream.EndSse(res);
  }

  /** A piped write is never the sentinel frame. */
  lemma PipedWriteNotDone(w: string)
    requires w == "\n" || NodeStream.ForwardedLine(w)
    ensures w != EventStream.DoneFrame
  {
    var done := EventStream.DoneFrame;
    assert |done| == 14 && done[12] == '\n';
    if |w| == 14 {
      assert w[12] == w[..13][12];
    }
  }

  /** A token frame is never the sentinel frame: its payload is an object. */
  lemma TokenFrameNotDone(token: string)
    ensures EventStream.TokenFrame(token, Json.Stringify) != EventStream.DoneFrame
  {
    var payload := Json.Serialize(EventStream.Envelope(token), Json.Stringify);
    assert payload[0] == '{' by {
      EventStream.EnvelopeStringify(token);
    }
    assert EventStream.TokenFrame(token, Json.Stringify)[6] == payload[0];
    assert EventStream.DoneFrame[6] == '[';
  }

  /** Appending the sentinel to writes that do not hold it makes it the
      last write and the only one. */
  lemma EndsWith(prefix: seq<string>, done: string)
    requires done !in prefix
    ensures var w := prefix + [done]; w[|w| - 1] == done && multiset(w)[done] == 1
  {
    assert multiset(prefix)[done] == 0;
  }

  /** Once the stream has started, `endSSE` runs exactly once on every path
      that settles, as the last write, and never on the path that does not. */
  lemma EndsExactlyOnce(model: ModelResponse)
    ensures var w := StreamWrites(model);
            Settles(model) ==> |w| >= 1 && w[|w| - 1] == EventStream.DoneFrame
                               && multiset(w)[EventStream.DoneFrame] == 1
    ensures !Settles(model) ==> EventStream.DoneFrame !in StreamWrites(model)
  {
    match model
    case ModelUnreachable =>
      ApologyEndsOnce(ContactError);
    case ModelAnswered(status, body) =>
      if !NodeVerify.IsOk(status) || body.None? {
        ApologyEndsOnce(ModelError);
      } else {
        PipedEnds(body.value.chunks, body.value.failsAtEnd);
      }
  }

  /** The piped writes, followed by the sentinel when the body was read to
      its end, hold the sentinel once and last; a failed read leaves it out. */
  lemma PipedEnds(chunks: seq<string>, failsAtEnd: bool)
    ensures var w := NodeStream.PipeWrites(chunks) + (if failsAtEnd then [] else [EventStream.DoneFrame]);
            && (!failsAtEnd ==> |w| >= 1 && w[|w| - 1] == EventStream.DoneFrame
                                && multiset(w)[EventStream.DoneFrame] == 1)
            && (failsAtEnd ==> EventStream.DoneFrame !in w)
  {
    var piped := NodeStream.PipeWrites(chunks);
    PipedNotDone(chunks);
    if failsAtEnd {
      assert piped + [] == piped;
    } else {
      EndsWith(piped, EventStream.DoneFrame);
    }
  }

  /** An apology and the sentinel end with the sentinel, which occurs once. */
  lemma ApologyEndsOnce(apology: string)
    ensures var w := [EventStream.TokenFrame(apology, Json.Stringify), EventStream.DoneFrame];
            w[|w| - 1] == EventStream.DoneFrame && multiset(w)[EventStream.DoneFrame] == 1
  {
    var frame := EventStream.TokenFrame(apology, Json.Stringify);
    TokenFrameNotDone(apology);
    assert [frame, EventStream.DoneFrame] == [frame] + [EventStream.DoneFrame];
    EndsWith([frame], EventStream.DoneFrame);
  }

  /** `pipeStream` never writes the sentinel frame itself. */
  lemma PipedNotDone(chunks: seq<string>)
    ensures EventStream.DoneFrame !in NodeStream.PipeWrites(chunks)
  {
    NodeStream.PipeWritesShape(chunks);
    forall w <- NodeStream.PipeWrites(chunks) ensures w != EventStream.DoneFrame {
      PipedWriteNotDone(w);
    }
  }

  /** An unreachable model: the client reads the apology and then `[DONE]`. */
  lemma UnreachableModelEvents()
    ensures EventStream.Events(Text.Join(StreamWrites(ModelUnreachable), ""))
         == [Json.Serialize(EventStream.Envelope(ContactError), Json.Stringify), "[DONE]"]
  {
    ApologyEvents(ContactError);
  }

  /** A model that answers with an error status or no body: the client
      reads the other apology and then `[DONE]`. */
  lemma FailedModelEvents(status: int, body: Option<ModelBody>)
    requires !NodeVerify.IsOk(status) || body.None?
    ensures EventStream.Events(Text.Join(StreamWrites(ModelAnswered(status, body)), ""))
         == [Json.Serialize(EventStream.Envelope(ModelError), Json.Stringify), "[DONE]"]
  {
    ApologyEvents(ModelError);
  }

  /** An apology frame and the sentinel read as the apology's envelope and
      then `[DONE]`. */
  lemma ApologyEvents(apology: string)
    ensures EventStream.Events(Text.Join([EventStream.TokenFrame(apology, Json.Stringify), EventStream.DoneFrame], ""))
         == [Json.Serialize(EventStream.Envelope(apology), Json.Stringify), "[DONE]"]
  {
    var frame, done := EventStream.TokenFrame(apology, Json.Stringify), EventStream.DoneFrame;
    Text.JoinTwo(frame, done);
    assert EventStream.Events(frame + done)
        == [Json.Serialize(EventStream.Envelope(apology), Json.Stringify)] + EventStream.Events(done) by {
      EventStream.TokenFrameEvent(apology, Json.Stringify, done);
    }
    assert EventStream.Events(done) == ["[DONE]"] by {
      EventStream.DoneFrameEvent("");
      assert done + "" == done;
    }
  }

  /** A model that streams one complete `data` event: the client reads that
      event's payload and then the handler's `[DONE]`. When the upstream's
      own event is its `[DONE]` sentinel, the client therefore reads `[DONE]`
      twice. */
  lemma RelayedEventThenDone(status: int, value: string)
    requires NodeVerify.IsOk(status)
    requires forall i :: 0 <= i < |value| ==> !EventStream.IsEol(value[i])
    ensures var model := ModelAnswered(status, Some(ModelBody(["data: " + value + "\n\n"], false)));
            EventStream.Events(Text.Join(StreamWrites(model), "")) == [value, "[DONE]"]
  {
    var chunk := "data: " + value + "\n\n";
    var model := ModelAnswered(status, Some(ModelBody([chunk], false)));
    assert Text.Join(StreamWrites(model), "") == chunk + EventStream.DoneFrame by {
      SingleEventWrites(status, value);
    }
    DataThenDone(value);
  }

  /** The writes for a model body of one complete `data` event. */
  lemma SingleEventWrites(status: int, value: string)
    requires NodeVerify.IsOk(status)
    requires forall i :: 0 <= i < |value| ==> !EventStream.IsEol(value[i])
    ensures var chunk := "data: " + value + "\n\n";
            Text.Join(StreamWrites(ModelAnswered(status, Some(ModelBody([chunk], false)))), "")
            == chunk + EventStream.DoneFrame
  {
    var done := EventStream.DoneFrame;
    var chunk := "data: " + value + "\n\n";
    var line := "data: " + value + "\n";
    var model := ModelAnswered(status, Some(ModelBody([chunk], false)));
    assert StreamWrites(model) == [line, "\n", done] by {
      assert NodeStream.PipeWrites([chunk]) == [line, "\n"] by {
        assert Text.Free(value, '\n');
        NodeStream.ForwardCompleteEvent(value);
        assert [chunk][..0] == [];
      }
    }
    assert Text.Join([line, "\n", done], "") == line + "\n" + done by {
      Text.JoinThree(line, "\n", done);
    }
    assert line + "\n" == chunk;
  }

  /** A `data` event followed by the sentinel frame carries two events. */
  lemma DataThenDone(value: string)
    requires forall i :: 0 <= i < |value| ==> !EventStream.IsEol(value[i])
    ensures EventStream.Events("data: " + value + "\n\n" + EventStream.DoneFrame) == [value, "[DONE]"]
  {
    var done := EventStream.DoneFrame;
    EventStream.DataFrameEvent(value, done);
    assert EventStream.Events(done) == ["[DONE]"] by {
      EventStream.DoneFrameEvent("");
      assert done + "" == done;
      EventStream.EventsEmpty();
    }
  }
}
