/** What both request handlers share: chat messages, the message list sent to
    the model, the configuration read from the environment, the model
    request, the optional user lookup, and the record of external calls. */
module Relay {
  import opened Wrappers
  import Json

  /** One chat message as the caller sent it: its role (absent in a message
      without one) and its content. */
  datatype Message = Message(role: Option<string>, content: string)

  /** The message carries the role `system`. */
  predicate IsSystem(m: Message) {
    m.role == Some("system")
  }

  /** The caller's messages without those whose role is `system`, in their
      original order. A message without a role is kept. */
  function DropSystem(msgs: seq<Message>): seq<Message> {
    if msgs == [] then [] else (if IsSystem(msgs[0]) then [] else [msgs[0]]) + DropSystem(msgs[1..])
  }

  /** A message survives the filter exactly when it was sent and is not a
      system message. */
  lemma {:induction false} DropSystemMembers(msgs: seq<Message>)
    ensures forall m :: m in DropSystem(msgs) <==> m in msgs && !IsSystem(m)
  {
    if msgs != [] {
      DropSystemMembers(msgs[1..]);
      assert msgs == [msgs[0]] + msgs[1..];
    }
  }

  /** Filtering commutes with concatenation, so relative order is kept. */
  lemma {:induction false} DropSystemAppend(a: seq<Message>, b: seq<Message>)
    ensures DropSystem(a + b) == DropSystem(a) + DropSystem(b)
  {
    if a == [] {
      assert a + b == b;
    } else {
      assert (a + b)[1..] == a[1..] + b;
      assert (a + b)[0] == a[0];
      DropSystemAppend(a[1..], b);
      var head := if IsSystem(a[0]) then [] else [a[0]];
      assert DropSystem(a + b) == head + (DropSystem(a[1..]) + DropSystem(b));
      assert DropSystem(a) == head + DropSystem(a[1..]);
    }
  }

  /** A list without system messages passes unchanged. */
  lemma {:induction false} DropSystemKeepsOthers(msgs: seq<Message>)
    requires forall m <- msgs :: !IsSystem(m)
    ensures DropSystem(msgs) == msgs
  {
    if msgs != [] {
      assert msgs[0] in msgs;
      DropSystemKeepsOthers(msgs[1..]);
    }
  }

  /** The message list for the model: the server's system message first,
      then the caller's non-system messages in order (the filter of
      `DropSystem`, whose order and membership `DropSystemAppend` and
      `DropSystemMembers` state); it holds exactly one system message. */
  function Assemble(systemContent: string, msgs: seq<Message>): (r: seq<Message>)
    ensures |r| >= 1 && r[0] == Message(Some("system"), systemContent)
    ensures r[1..] == DropSystem(msgs)
    ensures forall i :: 1 <= i < |r| ==> !IsSystem(r[i])
    ensures forall m :: m in r[1..] <==> m in msgs && !IsSystem(m)
  {
    var kept := DropSystem(msgs);
    DropSystemMembers(msgs);
    assert forall i :: 0 <= i < |kept| ==> kept[i] in kept;
    var r := [Message(Some("system"), systemContent)] + kept;
    assert r[1..] == kept;
    r
  }

  /** The line the handlers append to the system prompt when the user lookup
      succeeds. */
  function LoginNote(login: string): string {
    "\n\nThe user's GitHub login is: " + login
  }

  /** The environment variables the handlers read; each may be unset. */
  datatype Env = Env(baseUrl: Option<string>, model: Option<string>, apiKey: Option<string>)

  const DefaultBaseUrl: string := "https://models.inference.ai.azure.com"
  const DefaultModel: string := "gpt-4o"

  /** The body and headers of the streaming chat-completion request. */
  datatype ChatRequest = ChatRequest(url: string, authorization: string, model: string,
                                     messages: seq<Message>, stream: bool)

  /** The request both handlers send: `LLM_BASE_URL` (or the GitHub Models
      endpoint) with `/chat/completions`, the key as a bearer token,
      `LLM_MODEL` (or `gpt-4o`), the assembled messages, and streaming on. */
  function ModelRequest(env: Env, apiKey: string, messages: seq<Message>): ChatRequest {
    ChatRequest(env.baseUrl.GetOr(DefaultBaseUrl) + "/chat/completions", "Bearer " + apiKey,
                env.model.GetOr(DefaultModel), messages, true)
  }

  /** The body of a successful `GET /user`, if it is JSON: its `login`, when present. */
  datatype UserDocument = UserDocument(login: Option<string>)

  /** What the HTTP client reports for the user lookup. */
  datatype UserLookup =
    | LookupRaised
    | LookupAnswered(status: int, body: Option<UserDocument>)

  /** The external calls a request handler makes, in order. `StartStream`
      marks the moment the event-stream headers go out. */
  datatype Call =
    | FetchKeys
    | LookupUser(token: string)
    | StartStream
    | CallModel(request: ChatRequest)

  /** The JSON body of an early error response, `{"error": message}`. */
  function ErrorJson(message: string): Json.Json {
    Json.JObject([Json.Member("error", Json.JString(message))])
  }
}
