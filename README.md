# Streaming prompt service: a Dafny model of its frame generators

The service streams Server-Sent Events. `POST /process` takes a request
holding a `prompt` and `max_tokens`, which defaults to 100. It answers with one
frame per iteration of `range(max_tokens)`. Frame `i` carries the record
`{"id": i, "event": "token", "data": "token_<i>", "prompt": <prompt>}`.
`GET /stream` always answers with ten frames. Frame `i` carries
`{"id": i, "event": "message", "data": "This is message <i+1>"}`. Every frame
is the text `"data: " + json.dumps(record) + "\n\n"`.

The model has these modules:

- `Numerals` spells non-negative integers in decimal, as `f"{i}"` and `json.dumps` do, and reads the spelling back.
- `JsonString` writes a string literal with `json.dumps`'s default `ensure_ascii=True` escaping, and reads it back.
- `JsonObject` writes a dict with the default separators `", "` and `": "`, keeping insertion order, and reads it back.
- `Sse` holds the record, its JSON payload and its frame.
- `Api` holds the request record and the two generators.

Each generator is a method whose loop appends one frame per iteration. The
method is proved equal to `Api.Stream`. Every property of the streams is
proved about that function: frame count, ids, content, exact text, prefixes
and framing. The readers are inverses of the writers, used only in proofs:
they let "frame `i` holds id `i` and the prompt unchanged" be stated as a
round trip.

`json.dumps` is called with its default separators, which put a space after
`,` and after `:`, so the payload is not compact JSON; the model follows the
code.

## Model

| member | source | states |
|---|---|---|
| Api.ProcessPrompt | app/api.py:15-28 | the frames `process_prompt` yields for `(prompt, max_tokens)` are exactly `Stream(Tokens(prompt), maxTokens)`, in order |
| Api.EventGenerator | app/api.py:46-57 | the frames `event_generator` yields are exactly `Stream(Messages, 10)`, in order |
| Api.EventAt | app/api.py:20-26 | the record built in iteration `i` has id `i` |
| Api.IterationsGrow | app/api.py:18 | one more iteration of `range` appends that iteration's item and leaves the earlier items unchanged |
| Api.StreamPrefix | app/api.py:18-27 | the stream for `m` is a prefix of the stream for any `n >= m`, so frame `i` does not depend on how many frames follow |
| Api.StreamDecodes | app/api.py:18-27 | every frame of a stream reads back as the record of its own iteration, which depends only on `i` and the prompt |
| Api.StreamIds | app/api.py:18-22 | the ids in a stream's frames start at 0 and go up by exactly one per frame |
| Api.StreamDistinct | app/api.py:18-27 | no two frames of a stream are equal |
| Api.StreamIsOneEventPerFrame | app/api.py:27 | in every frame the only line breaks are the last two characters, so each frame is exactly one event |
| Api.ProcessPromptFrames | app/api.py:15-27 | `process_prompt` sends `max(max_tokens, 0)` frames; frame `i` reads back as id `i`, event "token", data "token_" + decimal `i`, and the prompt unchanged |
| Api.EventGeneratorFrames | app/api.py:46-56 | `event_generator` sends 10 frames; frame `i` reads back as id `i`, event "message", data "This is message " + decimal `i+1`, and no prompt |
| Api.TokenFrameText | app/api.py:20-27 | the exact text of token frame `i`: `data: `, then `{"id": i, "event": "token", "data": "token_i", "prompt": ` with the escaped prompt and `}`, then two newlines |
| Api.MessageFrameText | app/api.py:50-56 | the exact text of message frame `i`: `data: `, then `{"id": i, "event": "message", "data": "This is message i+1"}` with no prompt key, then two newlines |
| Api.NumberedTextQuotesVerbatim | app/api.py:20 | a plain prefix followed by a decimal number, such as `token_<i>`, is written by `json.dumps` unescaped between quotes |
| Api.DefaultRequestStream | app/api.py:11-13 | a request that omits `max_tokens` gets 100 frames, and the last one carries id 99 and data "token_99" |
| Numerals.Decimal | app/api.py:20 | `f"{i}"` for `i >= 0`: a non-empty digit string with no leading zero whose value is `i` |
| Numerals.ParseDecimal | app/api.py:20 | reading a decimal spelling back gives the number and leaves the text after it |
| Numerals.DecimalOfValue | app/api.py:20 | every canonical digit string is the spelling of the number it denotes |
| Numerals.ParseNatIsDecimal | app/api.py:20 | whatever the number reader accepts is a decimal spelling followed by the rest |
| Numerals.DecimalInjective | app/api.py:20 | distinct numbers have distinct spellings |
| JsonString.Hex4RoundTrip | app/api.py:27 | the four lower-case hex digits of a `\uXXXX` escape read back as the code unit |
| JsonString.EscapeChar | app/api.py:27 | one character as `json.dumps` writes it: printable ASCII output; the character itself exactly when it is printable ASCII other than `"` and `\`; otherwise an escape starting with a backslash |
| JsonString.EscapeCharRoundTrip | app/api.py:27 | an escaped character reads back as that character, including characters above U+FFFF written as surrogate pairs |
| JsonString.EscapeRoundTrip | app/api.py:27 | an escaped string body reads back as the original text, up to the closing quote |
| JsonString.QuoteRoundTrip | app/api.py:27 | a JSON string literal reads back as the original text, whatever follows it |
| JsonString.EscapeKeepsPlainText | app/api.py:27 | escaping leaves a text unchanged exactly when every character is plain, and makes it longer otherwise |
| JsonString.PlainTextQuotesVerbatim | app/api.py:23 | a plain text such as "token" is written verbatim between quotes |
| JsonObject.IntRoundTrip | app/api.py:22 | an integer written by `json.dumps` reads back as itself, negative ones included |
| JsonObject.MemberRoundTrip | app/api.py:21-27 | a `"key": value` member reads back as the same key and value |
| JsonObject.MembersRoundTrip | app/api.py:21-27 | members joined by `", "` read back as the same members in the same order |
| JsonObject.ObjectRoundTrip | app/api.py:21-27 | an object written by `json.dumps` reads back as the same members in insertion order |
| Sse.PayloadLayoutWithPrompt | app/api.py:21-27 | a token record's payload is `{"id": …, "event": …, "data": …, "prompt": …}`, keys in insertion order, with `": "` and `", "` |
| Sse.PayloadLayoutWithoutPrompt | app/api.py:50-56 | a message record's payload is `{"id": …, "event": …, "data": …}` with no prompt key |
| Sse.RecordRoundTrip | app/api.py:21-26 | the dict items of a record give the record back |
| Sse.FrameRoundTrip | app/api.py:27 | a frame reads back as the record it was written from |
| Sse.FrameInjective | app/api.py:27 | two frames are equal exactly when their records are equal |
| Sse.FrameIsOneEvent | app/api.py:56 | a frame's only line breaks are its final two newlines, the first ending the `data:` line and the second the event |

## Left out

- FastAPI routing and `StreamingResponse` (app/api.py:9, 30-44): HTTP is not modelled. Each endpoint is represented by the sequence of frames its generator yields.
- The `asyncio.sleep` pacing (app/api.py:28, 57): timing has no effect on the frames, so it is dropped.
- The root endpoint and the uvicorn start-up (app/api.py:59-66): they are outside the streaming core.
- Pydantic validation of the request body: `Api.PromptRequest` assumes the body is already well-typed. A rejected body (HTTP 422) is not modelled.
- Client disconnects and generator cancellation: the source has no code for them. The model always describes the complete stream.
- Lone surrogates in the prompt: a Python `str` may hold one, but a Dafny `string` cannot, so `\udXXX` escapes of a lone surrogate never occur in the model.
- General `json.dumps`: only what the records hold is modelled, namely ints and strings in a flat dict, with default arguments.
- The readers: `JsonString.DecodeString`, `JsonObject.DecodeObject` and `Sse.DecodeFrame` are the inverses of the writers, used to state round trips; they do not model a client. Outside strings they accept only `json.dumps`'s braces, separators and integer spelling, with no extra whitespace. Inside strings they also read forms `json.dumps` never writes: `\/`, upper-case hex digits, `\uXXXX` for a character that has a shorter form, and raw DEL and non-ASCII characters.
- Memory and time limits: integers are unbounded, as Python's are, so a huge `max_tokens` is not bounded by memory or time in the model.
