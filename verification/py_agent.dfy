/** The Python agent's `POST /` view (`app.py`): `infer` checks the signature
    headers, verifies the request, reads the body, builds the model's message
    list and returns a streaming response around the `generate` generator,
    which Flask runs only while it sends the body. The key endpoint, the key
    loader, the base64 decoder, the signature check, the user lookup, the
    model and the environment are inputs. */
module PyAgent {
  import opened Wrappers
  import opened KeyStore
  import Json
  import Text
  import EventStream
  import PyVerify
  import PyStream
  import NodeAgent
  import opened Relay

  /** The agent's persona: three sentences joined by spaces. */
  const SystemPrompt: string :=
    "You are a helpful assistant built with GitHub Copilot Extensions. "
    + "You have deep knowledge of software development and GitHub. "
    + "Be concise, accurate, and friendly."

  /** `request.get_json(force=True) or {}`: a body that does not parse, or
      an object (a falsy JSON value counts as `{}`) with its `messages`. */
  datatype Payload = Unparsable | Document(messages: Option<seq<Message>>)

  /** What `infer` reads from the request. The headers are read with `""`
      as their default, so an absent header and an empty one are the same. */
  datatype Request = Request(keyId: string, signature: string, githubToken: string,
                             rawBody: seq<byte>, payload: Payload)

  /** Everything outside the view that decides what `infer` does. */
  datatype World = World(keys: KeyFetch, loadPem: PyVerify.PemLoader, b64decode: PyVerify.Base64Decoder,
                         ecdsa: PyVerify.EcdsaCheck, user: UserLookup, env: Env)

  /** The headers of the streaming response. */
  const StreamHeaders: map<string, string> := map[
    "Content-Type" := "text/event-stream",
    "Cache-Control" := "no-cache",
    "X-Accel-Buffering" := "no"]

  /** What `infer` returns: a JSON error with its status, Flask's 400 page for
      a body that is not JSON, or a streaming response whose generator will
      send `request` to the model. */
  datatype Reply =
    | JsonError(status: int, body: Json.Json)
    | BadRequestPage
    | Streaming(headers: map<string, string>, request: ChatRequest)

  /** A reply and the external calls made while computing it. */
  datatype Handled = Handled(reply: Reply, calls: seq<Call>)

  /** Both signature headers are non-empty. */
  predicate HasHeaders(req: Request) {
    req.keyId != "" && req.signature != ""
  }

  /** The request passes signature verification. */
  predicate Verified(req: Request, world: World) {
    PyVerify.VerifySignature(req.rawBody, req.keyId, req.signature, world.keys,
                             world.loadPem, world.b64decode, world.ecdsa) == Pass
  }

  /** The context note: the user's login when a token was sent and the
      lookup answered ok (no HTTP error status) with a JSON body; a missing
      `login` prints as the empty string. Every failure leaves it empty. */
  function ContextNote(token: string, user: UserLookup): (note: string)
    ensures note != "" <==> token != "" && user.LookupAnswered? && !PyVerify.IsHttpError(user.status)
                            && user.body.Some?
    ensures note != "" ==> note == LoginNote(user.body.value.login.GetOr(""))
  {
    if token == "" then ""
    else
      match user
      case LookupRaised => ""
      case LookupAnswered(status, body) =>
        if !PyVerify.IsHttpError(status) && body.Some? then LoginNote(body.value.login.GetOr("")) else ""
  }

  /** `github_token or os.environ.get("LLM_API_KEY", "")`: an empty token
      falls back to the environment. */
  function ApiKey(token: string, envKey: Option<string>): string {
    if token != "" then token else envKey.GetOr("")
  }

  /** `infer()`: 400 for a missing header, 401 for a failed verification,
      the 400 page for a body that is not JSON, and otherwise a streaming
      response for the model request built from the environment, the chosen
      key and the assembled messages; the user lookup happens exactly when a
      token was sent to a verified request with a JSON body. */
  function Infer(req: Request, world: World): (h: Handled)
    ensures !HasHeaders(req) ==> h == Handled(JsonError(400, ErrorJson("Missing signature headers")), [])
    ensures HasHeaders(req) && !Verified(req, world) ==> h == Handled(JsonError(401, ErrorJson("Unauthorized")), [FetchKeys])
    ensures HasHeaders(req) && Verified(req, world) && req.payload.Unparsable? ==> h == Handled(BadRequestPage, [FetchKeys])
    ensures HasHeaders(req) ==> |h.calls| >= 1 && h.calls[0] == FetchKeys
    ensures h.reply.Streaming? ==> |h.calls| == (if req.githubToken != "" then 2 else 1)
    ensures forall c :: c in h.calls ==> !c.CallModel? && !c.StartStream?
    ensures forall t :: LookupUser(t) in h.calls ==> t == req.githubToken
    ensures h.reply.Streaming? <==> HasHeaders(req) && Verified(req, world) && req.payload.Document?
    ensures h.reply.Streaming? ==>
              && h.reply.headers == StreamHeaders
              && h.reply.request
                 == ModelRequest(world.env, ApiKey(req.githubToken, world.env.apiKey),
                                 Assemble(SystemPrompt + ContextNote(req.githubToken, world.user),
                                          req.payload.messages.GetOr([])))
    ensures (exists t :: LookupUser(t) in h.calls) <==> h.reply.Streaming? && req.githubToken != ""
  {
    if !HasHeaders(req) then Handled(JsonError(400, ErrorJson("Missing signature headers")), [])
    else if !Verified(req, world) then Handled(JsonError(401, ErrorJson("Unauthorized")), [FetchKeys])
    else
      match req.payload
      case Unparsable => Handled(BadRequestPage, [FetchKeys])
      case Document(messages) =>
        var token := req.githubToken;
        var lookup := if token != "" then [LookupUser(token)] else [];
        var llmMessages := Assemble(SystemPrompt + ContextNote(token, world.user), messages.GetOr([]));
        var request := ModelRequest(world.env, ApiKey(token, world.env.apiKey), llmMessages);
        assert token != "" ==> ([FetchKeys] + lookup)[1] == LookupUser(token);
        Handled(Streaming(StreamHeaders, request), [FetchKeys] + lookup)
  }

  /** The same message list and key for a Node and a Python agent: the key
      differs exactly when the token header is sent empty and the
      environment supplies a non-empty key, since the Node agent falls back
      only on an absent header and the Python agent also on an empty one. */
  lemma ApiKeyDivergence(header: Option<string>, envKey: Option<string>)
    ensures ApiKey(header.GetOr(""), envKey) != NodeAgent.ApiKey(header, envKey)
            <==> header == Some("") && envKey.GetOr("") != ""
  {
  }

  /** For the same token header, conversation and environment, a verified
      Node request and a verified Python request with a JSON body lead to
      the same model request apart from the system message's text: the same
      endpoint, model and streaming flag, the same caller messages in the
      same order, and the same key except when the header is sent empty and
      the environment supplies a key. */
  lemma SameModelRequest(nodeReq: NodeAgent.Request, nodeWorld: NodeAgent.World, req: Request, world: World)
    requires NodeAgent.Verified(nodeReq, nodeWorld)
    requires HasHeaders(req) && Verified(req, world) && req.payload.Document?
    requires req.githubToken == nodeReq.githubToken.GetOr("")
    requires req.payload.messages.GetOr([]) == nodeReq.messages.GetOr([])
    requires world.env == nodeWorld.env
    ensures var calls := NodeAgent.Steps(nodeReq, nodeWorld);
            var n := calls[|calls| - 1].request;
            var p := Infer(req, world).reply.request;
            && n.url == p.url && n.model == p.model && n.stream == p.stream
            && |n.messages| == |p.messages| && n.messages[1..] == p.messages[1..]
            && (n.authorization == p.authorization
                <==> !(nodeReq.githubToken == Some("") && world.env.apiKey.GetOr("") != ""))
  {
    var n := NodeAgent.RequestFor(nodeReq, nodeWorld);
    var p := Infer(req, world).reply.request;
    var nodeKey := NodeAgent.ApiKey(nodeReq.githubToken, world.env.apiKey);
    var pyKey := ApiKey(req.githubToken, world.env.apiKey);
    ApiKeyDivergence(nodeReq.githubToken, world.env.apiKey);
    assert n.authorization == p.authorization <==> nodeKey == pyKey by {
      BearerInjective(nodeKey, pyKey);
    }
  }

  /** Different keys give different `Authorization` values. */
  lemma BearerInjective(k1: string, k2: string)
    ensures "Bearer " + k1 == "Bearer " + k2 <==> k1 == k2
  {
    if "Bearer " + k1 == "Bearer " + k2 {
      assert k1 == ("Bearer " + k1)[7..];
    }
  }

  /** What the model call reports: `requests.post` raised, or a response
      with its status, the lines `iter_lines` yields, and whether reading
      fails after them. */
  datatype ModelReply =
    | PostRaised
    | Replied(status: int, lines: seq<string>, failsAtEnd: bool)

  /** The model call failed: it raised, or `raise_for_status` would. */
  predicate CallFailed(reply: ModelReply) {
    reply.PostRaised? || PyVerify.IsHttpError(reply.status)
  }

  /** The generator runs to its end: everything except a failed read of a
      successful response's body. */
  predicate Completes(reply: ModelReply) {
    !(reply.Replied? && !PyVerify.IsHttpError(reply.status) && reply.failsAtEnd)
  }

  /** What `generate()` yields: the error pair for a failed call, otherwise
      the piped lines and, when reading did not fail, the sentinel. */
  function GeneratedItems(reply: ModelReply): seq<string> {
    if CallFailed(reply) then PyStream.SseError(PyStream.ModelErrorMessage)
    else PyStream.PipedItems(reply.lines) + (if reply.failsAtEnd then [] else [PyStream.SseDone()])
  }

  /** `generate()`, run to its end or to the exception that stops it:
      the items it yields in order, and whether it finishes. */
  method Generate(reply: ModelReply) returns (items: seq<string>, completes: bool)
    ensures items == GeneratedItems(reply)
    ensures completes == Completes(reply)
  {
    if CallFailed(reply) {
      items, completes := PyStream.SseError(PyStream.ModelErrorMessage), true;
      return;
    }
    items := PyStream.PipeOpenaiStream(reply.lines);
    if reply.failsAtEnd {
      completes := false;
      return;
    }
    items := items + [PyStream.SseDone()];
    completes := true;
  }

  /** A failed model call yields the error pair and nothing else, which a
      client reads as the apology's envelope and then `[DONE]`. */
  lemma FailedCallEvents(reply: ModelReply)
    requires CallFailed(reply)
    ensures |GeneratedItems(reply)| == 2
    ensures EventStream.Events(Text.Join(GeneratedItems(reply), ""))
         == [Json.Serialize(EventStream.Envelope(PyStream.ModelErrorMessage), Json.Dumps), "[DONE]"]
  {
    ErrorPairEvents(PyStream.ModelErrorMessage);
  }

  /** The error pair for any message, joined, is the message's envelope and then `[DONE]`. */
  lemma ErrorPairEvents(message: string)
    ensures EventStream.Events(Text.Join(PyStream.SseError(message), ""))
         == [Json.Serialize(EventStream.Envelope(message), Json.Dumps), "[DONE]"]
  {
    var items := PyStream.SseError(message);
    PyStream.SseErrorEvents(message);
    assert Text.Join(items, "") == items[0] + items[1] by {
      assert items == [items[0], items[1]];
      Text.JoinTwo(items[0], items[1]);
    }
  }

  /** A successful call whose body is read to its end yields the sentinel
      exactly once, as its last item; a read that fails yields it never. */
  lemma DoneExactlyOnce(reply: ModelReply)
    requires !CallFailed(reply)
    requires forall line <- reply.lines :: Text.Free(line, '\n')
    ensures var items := GeneratedItems(reply);
            Completes(reply) ==> items[|items| - 1] == PyStream.SseDone()
                                 && multiset(items)[PyStream.SseDone()] == 1
    ensures !Completes(reply) ==> PyStream.SseDone() !in GeneratedItems(reply)
  {
    var piped := PyStream.PipedItems(reply.lines);
    PyStream.PipedItemsShape(reply.lines);
    if Completes(reply) {
      NodeAgent.EndsWith(piped, PyStream.SseDone());
    }
  }
}
