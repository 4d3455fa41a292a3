# Copilot agent relay — a Dafny model

The Node and Python agent templates are two implementations of one small
relay. GitHub Copilot posts a chat turn to `POST /`, signed with an ECDSA
P-256 key. The agent does the following:

- It checks that the signature headers are present.
- It fetches GitHub's published keys and verifies the signature over the raw
  body with the first key whose identifier matches.
- It optionally looks up the user's login to extend its system prompt.
- It builds the model's message list: its own system message first, then the
  caller's non-`system` messages in order.
- It calls an OpenAI-compatible chat-completion endpoint and relays the answer
  as a `text/event-stream` (section 9.2 of the WHATWG HTML Living Standard)
  that ends with `data: [DONE]`. A failing model gets an in-band apology
  token instead.

The model has one module per concern:

| module | file | what it holds |
|---|---|---|
| `Wrappers` | wrappers.dfy | `Option`, `Result`, `Outcome` |
| `Text` | text.dfy | JavaScript's `split` on one character, `trim`, `join` |
| `Json` | json.dfy | JSON values; `JSON.stringify` and `json.dumps` text (separators, string escaping with and without `ensure_ascii`); a reader for string literals |
| `EventStream` | event_stream.dfy | the token envelope and frames; the standard's interpretation of a stream as dispatched `data` payloads |
| `KeyStore` | key_store.dfy | the key list and the first-match lookup both verifiers share |
| `NodeVerify`, `PyVerify` | node_verify.dfy, py_verify.dfy | `verifySignature` / `verify_signature`; the P1363 split into `r` and `s` |
| `Relay` | relay.dfy | messages, message assembly, configuration, the model request, the external-call record |
| `NodeStream` | node_stream.dfy | a `ServerResponse` class (status, headers, writes, end) and an `Upstream` reader class; `startSSE`, `writeToken`, `endSSE` and `pipeStream` as methods on them |
| `PyStream` | py_stream.dfy | `sse_token`, `sse_done`, `sse_error`, `pipe_openai_stream` |
| `NodeAgent` | node_agent.dfy | the Express handler as a method that drives a `ServerResponse` |
| `PyAgent` | py_agent.dfy | `infer` as a function to a reply; its `generate` generator as a method |

Every external call becomes an input: the key request, the user lookup, the
model call and the environment. Three are function-valued inputs: the
signature check (an abstract predicate on key, body and signature), PEM
loading and base64 decoding. A request handler's record of external calls
(`Relay.Call`) shows what happens and in which order. The main point is that
the stream starts before the model is called, and that nothing starts
before verification succeeds.

Where the code behaves in a way a reader might not expect, the model
follows the code:

- **Node raw body.** The guard `!req.rawBody` rejects only a raw body the
  JSON parser did not keep. A kept body is a `Buffer`, which is truthy even
  when empty, so an empty body is not refused with 400.
- **Node read failure.** When reading the model's body fails, `pipeStream`
  rejects and the handler never reaches `endSSE`. The stream is not ended on
  that path (`NodeAgent.Settles`). Under Express 4 the rejection is unhandled,
  which on Node 15 or later ends the whole process; under Express 5 the error
  handler finds the headers already sent and destroys the connection. Neither
  consequence is modelled.
- **Upstream `[DONE]`.** Both handlers forward the model's own events
  unchanged, including its `data: [DONE]`, and then add their own. A client
  therefore reads `[DONE]` twice (`NodeAgent.RelayedEventThenDone`).
- **Python failure range.** `raise_for_status` raises for statuses 400..599
  only, not for every non-2xx status. `requests`' `ok` is its negation.
  Node's `ok` is 200..299.
- **Python key fallback.** The Python key fallback uses truthiness, so an
  empty token header falls back to `LLM_API_KEY`. Node's `??` fallback does
  not (`PyAgent.ApiKeyDivergence`).

## Model

| member | source | states |
|---|---|---|
| NodeStream.ServerResponse.SendJson | templates/nodejs-agent/src/index.ts:45 | `res.json`: the serialized value becomes the whole body, a JSON content type is set unless one is present, and the response ends |
| NodeStream.StartSse | templates/nodejs-agent/src/stream.ts:7-13 | the four event-stream headers are set over the old ones and flushed; status, writes and the end flag are unchanged, so no body byte is written |
| NodeStream.WriteToken | templates/nodejs-agent/src/stream.ts:21-26 | exactly one write, `data: ` + the envelope as `JSON.stringify` writes it + a blank line; the response stays open |
| NodeStream.EndSse | templates/nodejs-agent/src/stream.ts:33-36 | exactly one write, `data: [DONE]\n\n`, and then the response is finished (no `Write` is allowed afterwards) |
| NodeStream.Upstream.Read | templates/nodejs-agent/src/stream.ts:54-55 | each read yields the next chunk in order; after the last one it yields the end, or a failure for a broken body |
| NodeStream.ForwardPiece | templates/nodejs-agent/src/stream.ts:60-62 | one piece is written with its line feed exactly when its `trim()` is non-empty |
| NodeStream.ForwardChunk | templates/nodejs-agent/src/stream.ts:57-64 | one chunk's writes are its non-blank `\n`-separated pieces in order, each with a line feed, and then one `"\n"` |
| NodeStream.PipeStream | templates/nodejs-agent/src/stream.ts:45-69 | the writes are the per-chunk writes of all chunks in order; it resolves exactly when the body ends without a failed read; every chunk is read and the reader's lock is released on both exits |
| NodeStream.PipeWritesAppend | templates/nodejs-agent/src/stream.ts:53-65 | the output for `a + b` is the output for `a` followed by the output for `b` |
| NodeStream.PipeWritesShape | templates/nodejs-agent/src/stream.ts:59-62 | every write is the separator `"\n"` or a non-blank line free of line feeds followed by one line feed |
| NodeStream.ForwardLinesShape | templates/nodejs-agent/src/stream.ts:59-62 | every line forwarded from split pieces is non-blank and holds no line feed before its terminator |
| NodeStream.ChunkSeparator | templates/nodejs-agent/src/stream.ts:64 | one chunk's writes hold exactly one separator `"\n"` |
| NodeStream.SeparatorCount | templates/nodejs-agent/src/stream.ts:53-65 | the number of separator writes equals the number of chunks read |
| NodeStream.ChunkBoundariesMatter | templates/nodejs-agent/src/stream.ts:57-59 | a line delivered in one chunk is forwarded as one line, but the same line cut across two chunks is forwarded as two lines, each with its own separator |
| NodeStream.ForwardCompleteEvent | templates/nodejs-agent/src/stream.ts:57-64 | a chunk holding exactly one `data:` event is forwarded as its line and then the separator that closes the event |
| NodeVerify.FetchPublicKeys | templates/nodejs-agent/src/verify.ts:16-27 | the key list is returned exactly when the endpoint answers 200..299 with JSON; a non-ok status is the error carrying that status |
| NodeVerify.VerifySignature | templates/nodejs-agent/src/verify.ts:37-61 | passes exactly when the first entry carrying the identifier has a key and the abstract ECDSA check holds for it over the raw body; a failed fetch, a missing key list and an unknown identifier are the errors, with no signature check |
| NodeVerify.VerifiesRawBody | templates/nodejs-agent/src/verify.ts:49-50 | the verdict depends on the signature check only at `(key, rawBody, signature)`: the body is checked as received |
| NodeVerify.FirstKeyDecides | templates/nodejs-agent/src/verify.ts:43 | a later entry with the same identifier never changes the verdict |
| KeyStore.FindKey | templates/nodejs-agent/src/verify.ts:43 | the result is the index of the first entry whose identifier matches, and none means that no entry matches |
| KeyStore.FirstMatchUnique | templates/python-agent/verify.py:50 | the first match is unique |
| KeyStore.FindKeyFirstMatch | templates/python-agent/verify.py:50 | whenever a first match exists, the lookup returns it |
| KeyStore.FindKeyPrefix | templates/python-agent/verify.py:50 | entries appended after a match do not change the lookup |
| PyVerify.FetchPublicKeys | templates/python-agent/verify.py:20-33 | a key list is returned exactly when the request answers without a 4xx/5xx status and with JSON; a missing `public_keys` is the empty list; a 4xx/5xx status is an HTTP error carrying it |
| PyVerify.FromBytes | templates/python-agent/verify.py:65-66 | `int.from_bytes(bs, "big")` is below 256^len(bs) |
| PyVerify.ToBytesFromBytes | templates/python-agent/verify.py:65-66 | writing the integer back as the same number of big-endian bytes gives the bytes back |
| PyVerify.FromBytesToBytes | templates/python-agent/verify.py:65-66 | reading back the big-endian bytes of an integer gives the integer |
| PyVerify.SignatureArgumentOf | templates/python-agent/verify.py:64-71 | a 64-byte signature becomes `(r, s)`, each below 2^256, whose 32-byte encodings concatenate to the signature; any other length is passed on unchanged |
| PyVerify.VerifySignature | templates/python-agent/verify.py:36-73 | passes exactly when the first entry carrying the identifier has a key that loads as an EC key, the signature decodes and the abstract check holds over the raw body; fetch errors and an unknown identifier are reported as such |
| PyVerify.KeyTypeCheckedFirst | templates/python-agent/verify.py:57-60 | a key that is not an EC key is refused with `NotEcKey` whatever the base64 decoder and the signature check do |
| PyVerify.MissingKeyListIsEmpty | templates/python-agent/verify.py:33 | a key document without `public_keys` makes every identifier unknown |
| PyStream.SseToken | templates/python-agent/stream.py:14-25 | the frame is `data: ` + the envelope as `json.dumps` writes it (`", "` and `": "` separators, ASCII-only escaping of the token) + a blank line |
| PyStream.SseDoneEvents | templates/python-agent/stream.py:28-30 | the constant sentinel frame is read by a client as exactly one `[DONE]` event |
| PyStream.SseErrorEvents | templates/python-agent/stream.py:33-41 | the error reply is exactly two items, read as the message's envelope and then `[DONE]` |
| PyStream.PipeOpenaiStream | templates/python-agent/stream.py:44-61 | one item per upstream line, in order: the line plus `"\n"`, so an empty line gives `"\n"` and blank lines are kept |
| PyStream.PipedItemsShape | templates/python-agent/stream.py:57-61 | every item ends in a line feed, and no item is the `[DONE]` sentinel frame |
| PyStream.PipedItemsAppend | templates/python-agent/stream.py:57-61 | the items for consecutive stretches of lines are those stretches' items in order |
| EventStream.EnvelopeStringify | templates/nodejs-agent/src/stream.ts:22-24 | the envelope's text as `JSON.stringify` writes it, with the token quoted by its escaping |
| EventStream.EnvelopeDumps | templates/python-agent/stream.py:24 | the envelope's text as `json.dumps` writes it, with the token quoted by its ASCII-only escaping |
| EventStream.TokenFrameEvent | templates/nodejs-agent/src/stream.ts:25 | a token frame is read as exactly one event carrying the serialized envelope, whatever follows it |
| EventStream.DoneFrameEvent | templates/nodejs-agent/src/stream.ts:34 | the sentinel frame is read as exactly one `[DONE]` event, whatever follows it |
| EventStream.DataFrameEvent | templates/nodejs-agent/src/stream.ts:61-64 | a `data: ` line whose payload has no line terminator, followed by a blank line, is read as exactly one event carrying that payload |
| Json.EscapeChar | templates/python-agent/stream.py:24 | an escaped character holds no character below U+0020, and with `ensure_ascii` only SPACE..TILDE |
| Json.SerializePrintable | templates/nodejs-agent/src/stream.ts:22-25 | a serialized value holds no character below U+0020, so no line terminator can break the `data:` line of a frame |
| Json.UnescapeEscape | templates/nodejs-agent/src/stream.ts:22-24 | escaping is lossless: reading the escaped text back gives the original token, in both styles |
| Text.Split | templates/nodejs-agent/src/stream.ts:59 | `split('\n')` returns at least one piece, and no piece holds the separator |
| Text.JoinSplit | templates/nodejs-agent/src/stream.ts:59 | joining the pieces with the separator gives the text back |
| Text.SplitCount | templates/nodejs-agent/src/stream.ts:59 | there is one more piece than there are separators |
| Text.TrimStart | templates/nodejs-agent/src/stream.ts:60 | the result is a suffix of the text whose dropped prefix is all white space and which does not start with white space |
| Text.TrimEnd | templates/nodejs-agent/src/stream.ts:60 | the result is a prefix of the text whose dropped suffix is all white space and which does not end with white space |
| Text.TrimEmptyIffBlank | templates/nodejs-agent/src/stream.ts:60 | `trim()` is empty (falsy) exactly when the text is all white space |
| Relay.DropSystemMembers | templates/nodejs-agent/src/index.ts:84 | a message survives the filter exactly when it was sent and its role is not `system` |
| Relay.DropSystemAppend | templates/python-agent/app.py:87 | filtering commutes with concatenation, so the kept messages stay in their original order |
| Relay.DropSystemKeepsOthers | templates/python-agent/app.py:87 | a list without `system` messages passes unchanged |
| Relay.Assemble | templates/nodejs-agent/src/index.ts:82-85 | the server's system message comes first and is the only system message; the rest are exactly the caller's non-system messages in their original order (`DropSystem`) |
| NodeAgent.ContextNote | templates/nodejs-agent/src/index.ts:63-79 | the note is non-empty exactly when a token was sent and the lookup answered ok with JSON; it then names the login, or `undefined` when none is given |
| NodeAgent.Steps | templates/nodejs-agent/src/index.ts:50-95 | a verified request fetches the keys first, then looks the user up with the sent token exactly when a token was sent, then starts the stream, and only after that (last, and once) calls the model with the assembled request; nothing else calls the model or starts the stream |
| NodeAgent.Reject | templates/nodejs-agent/src/index.ts:45 | an early error is the status and `{"error": message}` as the whole JSON body, and the response ends |
| NodeAgent.HandlePost | templates/nodejs-agent/src/index.ts:39-126 | missing credentials: 400 with no external call; failed verification: 401 after the key fetch only; neither starts the stream; otherwise 200, the event-stream headers, the steps in order, the stream writes for the model's outcome, and an end on every path but a failed read; the headers count as sent on every path |
| NodeAgent.RelayModel | templates/nodejs-agent/src/index.ts:94-125 | on a started stream: an apology and the end for an unreachable model or a non-ok or bodiless answer; otherwise the piped body and, unless reading failed, the end; the headers stay sent |
| NodeAgent.Apologize | templates/nodejs-agent/src/index.ts:110-111 | the apology's token frame, then the sentinel and the end; the headers stay sent |
| NodeAgent.EndsExactlyOnce | templates/nodejs-agent/src/index.ts:108-125 | whenever the handler ends the stream, the sentinel is the last write and occurs once; after a failed read it is never written |
| NodeAgent.PipedNotDone | templates/nodejs-agent/src/stream.ts:59-64 | `pipeStream` never writes the sentinel frame itself |
| NodeAgent.UnreachableModelEvents | templates/nodejs-agent/src/index.ts:108-113 | an unreachable model is read as the contact-error apology's envelope and then `[DONE]` |
| NodeAgent.FailedModelEvents | templates/nodejs-agent/src/index.ts:115-121 | a non-ok or bodiless answer is read as the model-error apology's envelope and then `[DONE]` |
| NodeAgent.RelayedEventThenDone | templates/nodejs-agent/src/index.ts:124-125 | a model streaming one complete `data` event is read as that event and then the handler's `[DONE]` |
| PyAgent.ContextNote | templates/python-agent/app.py:67-82 | the note is non-empty exactly when a token was sent and the lookup answered without an HTTP error and with JSON; it then names the login, or `""` when none is given |
| PyAgent.ApiKeyDivergence | templates/python-agent/app.py:91 | the two agents choose different keys exactly when the token header is sent empty and the environment has a non-empty key |
| PyAgent.Infer | templates/python-agent/app.py:46-127 | an empty or missing header: 400 with no call; failed verification: 401 after the key fetch only; a body that does not parse: Flask's 400 page after the key fetch only; once the headers are present the calls start with the key fetch, and `infer` itself never calls the model or starts the stream; a stream exactly for a verified request with a JSON body, with the stream headers and, as its model call, the request built from the environment, the key `ApiKey` chooses and the server's system message (with the user note) followed by the caller's non-system messages in order; the user is looked up, with the sent token, exactly when a stream is returned and a token was sent, so a stream's calls are the key fetch and at most that one lookup |
| PyAgent.SameModelRequest | templates/python-agent/app.py:85-110 | given the same environment, token and messages, the Python agent's model call and the Node agent's last step agree on URL, model, `stream` and every caller message; their authorizations agree exactly unless the token header is sent empty and the environment has a non-empty key |
| PyAgent.Generate | templates/python-agent/app.py:94-118 | the items `generate` yields: the error pair for a post that raised or a 4xx/5xx status, otherwise the piped lines and, unless reading fails, the sentinel; and whether it runs to its end |
| PyAgent.FailedCallEvents | templates/python-agent/app.py:111-115 | a failed call yields exactly two items, read as the apology's envelope and then `[DONE]` |
| PyAgent.DoneExactlyOnce | templates/python-agent/app.py:117-118 | a successful call read to its end yields the sentinel once, as its last item; a failed read never yields it |

## Left out

- The ECDSA P-256 / SHA-256 check, PEM/SPKI loading, base64 decoding and the DER encoding of `(r, s)` are foreign library calls. They are function-valued inputs. Only the byte split the Python code computes is modelled.
- All network I/O (the key endpoint, `GET /user`, the model call) is left out; each outcome is an input. Express and Flask routing, `dotenv`, logging, `app.listen` / `app.run` and `/health` are left out too.
- `TextDecoder` with `stream: true` and `iter_lines(decode_unicode=True)` are left out: chunks and lines are already-decoded text. In Python, lines arrive already split and without terminators.
- Async interleaving and client disconnects are left out: each request is handled sequentially.
- templates/skillset/server.js is not part of this model.
- The error text `llmResponse.text()` reads and the exception messages are used only for logging and are not modelled. Each error case is a datatype constructor.
- Json: only strings, non-negative integers, arrays and objects are modelled, which is all the envelope and the error bodies use. `JSON.stringify`'s escaping of lone surrogates does not arise, because a Dafny `char` is a Unicode scalar value.
- PyAgent.Infer: `get_json(force=True) or {}` turns a falsy JSON document (`null`, `[]`, `0`, `false`, `""`) into `{}`; such a body is the `Document(None)` payload and streams with no caller messages. A truthy payload that is not an object, a `null` `messages` and a message that is not an object raise inside the view, and Flask answers 500; these are left out.
- NodeAgent.HandlePost: `express.json()` is strict, so a JSON body that is neither an object nor an array is refused with 400 before the handler runs; this parser-level answer is left out. An array body has no `messages` and is modelled as an absent one (`[]`). A `messages` that is not an array, or an element that is `null`, throws inside the async handler before the stream starts; Express 4 leaves that rejection unhandled, which on Node 15 or later ends the whole process (the template installs no `unhandledRejection` handler), and Express 5 answers 500. Both are left out.
- Both handlers: a `null` `login` is left out: Node writes `null`, Python writes `None`.
- NodeAgent.HandlePost: requires a response on which the handler itself has set nothing (status 200, an empty header map, nothing written). The header map holds only the headers the handler and `res.json` set on purpose: the `X-Powered-By` header Express adds before the handler runs, and the `Content-Length` and `ETag` that `res.send` adds under `res.json`, are not modelled. A repeated header reaches the handler as one comma-joined string, which the model treats like any other value.
- NodeStream.ServerResponse.SendJson: keeps a Content-Type that is already set unchanged, whereas Express's `res.send` appends `; charset=utf-8` to a type without a charset. The handler never sets a type before `res.json`, so none of its responses differ.
- PyAgent.Infer: absent and empty headers are one case, because the view reads them with the default `""`. `request.get_data()` always yields bytes, so the raw body is never missing.
- PyAgent.Generate: the model call is the outcome of the `requests.post` made with the request `Infer` returns. Flask sending the yielded items and a client read between items are not modelled.
