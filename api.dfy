/**
 * The two frame generators of the streaming service: the prompt-driven
 * stream behind `POST /process` and the fixed ten-message stream behind
 * `GET /stream`. Each runs `for i in range(n)` and emits one frame per
 * iteration; the model collects the frames in order, with the pacing sleeps
 * between them dropped.
 */
module Api {
  import opened Wrappers
  import opened Numerals
  import opened JsonString
  import opened JsonObject
  import opened Sse

  /** The number of token frames when a request leaves `max_tokens` out. */
  const DefaultMaxTokens: int := 100

  /** The number of frames the message stream always sends. */
  const MessageCount: nat := 10

  /** The body of `POST /process`: the prompt, and `max_tokens` defaulting to 100. */
  datatype PromptRequest = PromptRequest(prompt: string, maxTokens: int := DefaultMaxTokens)

  /** The two generators: token frames echoing a prompt, or the numbered messages. */
  datatype Producer = Tokens(prompt: string) | Messages

  /** The record a generator builds in iteration `i`. */
  function EventAt(p: Producer, i: nat): (e: Event)
    ensures e.id == i
  {
    match p
    case Tokens(prompt) => Event(i, "token", "token_" + Decimal(i), Some(prompt))
    case Messages => Event(i, "message", "This is message " + Decimal(i + 1), None)
  }

  /** What `for i in range(n): yield body(i)` yields: nothing when `n <= 0`. */
  function Iterations<T>(n: int, body: nat -> T): seq<T>
  {
    seq(if n > 0 then n else 0, i requires 0 <= i => body(i))
  }

  /** One more iteration appends what that iteration yields and leaves the earlier items alone. */
  lemma IterationsGrow<T>(n: nat, body: nat -> T)
    ensures Iterations(n + 1, body) == Iterations(n, body) + [body(n)]
  {
    assert Iterations(n + 1, body)[..n] == Iterations(n, body);
  }

  /** The loop body of a generator: the frame of iteration `i`. */
  function FrameAt(p: Producer): nat -> string
  {
    (i: nat) => Frame(EventAt(p, i))
  }

  /** The frames of iterations `0 .. n - 1`. */
  function Stream(p: Producer, n: int): seq<string>
  {
    Iterations(n, FrameAt(p))
  }

  /** `process_prompt(prompt, max_tokens)`: one token frame per iteration of `range(max_tokens)`. */
  method ProcessPrompt(prompt: string, maxTokens: int) returns (frames: seq<string>)
    ensures frames == Stream(Tokens(prompt), maxTokens)
  {
    frames := [];
    var i := 0;
    while i < maxTokens
      invariant 0 <= i && (i <= maxTokens || i == 0)
      invariant frames == Stream(Tokens(prompt), i)
      decreases maxTokens - i
    {
      var token := "token_" + Decimal(i);
      var data := Event(i, "token", token, Some(prompt));
      assert data == EventAt(Tokens(prompt), i);
      IterationsGrow(i, FrameAt(Tokens(prompt)));
      frames := frames + [Frame(data)];
      i := i + 1;
    }
  }

  /** `event_generator()`: ten message frames, numbered from 1 in their text. */
  method EventGenerator() returns (frames: seq<string>)
    ensures frames == Stream(Messages, MessageCount)
  {
    frames := [];
    var i := 0;
    while i < MessageCount
      invariant 0 <= i <= MessageCount
      invariant frames == Stream(Messages, i)
    {
      var data := Event(i, "message", "This is message " + Decimal(i + 1), None);
      assert data == EventAt(Messages, i);
      IterationsGrow(i, FrameAt(Messages));
      frames := frames + [Frame(data)];
      i := i + 1;
    }
  }

  /** A shorter run of a generator is a prefix of a longer one. */
  lemma StreamPrefix(p: Producer, m: int, n: int)
    requires m <= n
    ensures Stream(p, m) <= Stream(p, n)
  {
  }

  /** Every frame of a stream reads back as the record of its iteration. */
  lemma StreamDecodes(p: Producer, n: int)
    ensures forall i :: 0 <= i < |Stream(p, n)| ==> DecodeFrame(Stream(p, n)[i]) == Some(EventAt(p, i))
  {
    forall i | 0 <= i < |Stream(p, n)|
      ensures DecodeFrame(Stream(p, n)[i]) == Some(EventAt(p, i))
    {
      FrameRoundTrip(EventAt(p, i));
    }
  }

  /** The ids read from a stream's frames start at 0 and go up by exactly one per frame. */
  lemma StreamIds(p: Producer, n: int)
    ensures forall i :: 0 <= i < |Stream(p, n)| ==>
      DecodeFrame(Stream(p, n)[i]).Some? && DecodeFrame(Stream(p, n)[i]).value.id == i
  {
    StreamDecodes(p, n);
  }

  /** No frame is sent twice: the frames of a stream are pairwise distinct. */
  lemma StreamDistinct(p: Producer, n: int)
    ensures forall i, j :: 0 <= i < j < |Stream(p, n)| ==> Stream(p, n)[i] != Stream(p, n)[j]
  {
    StreamDecodes(p, n);
  }

  /** Every frame of a stream is one SSE event: a `data:` line and a blank line, no other line break. */
  lemma StreamIsOneEventPerFrame(p: Producer, n: int)
    ensures forall i, k :: 0 <= i < |Stream(p, n)| && 0 <= k < |Stream(p, n)[i]| ==>
      (IsLineBreak(Stream(p, n)[i][k]) <==> k >= |Stream(p, n)[i]| - 2)
  {
    forall i | 0 <= i < |Stream(p, n)|
      ensures forall k :: 0 <= k < |Stream(p, n)[i]| ==>
        (IsLineBreak(Stream(p, n)[i][k]) <==> k >= |Stream(p, n)[i]| - 2)
    {
      FrameIsOneEvent(EventAt(p, i));
    }
  }

  /**
   * `process_prompt` sends `max(max_tokens, 0)` frames; frame `i` reads back
   * as id `i`, event "token", data "token_<i>" and the prompt unchanged.
   */
  lemma ProcessPromptFrames(prompt: string, maxTokens: int)
    ensures |Stream(Tokens(prompt), maxTokens)| == if maxTokens > 0 then maxTokens else 0
    ensures forall i :: 0 <= i < |Stream(Tokens(prompt), maxTokens)| ==>
      DecodeFrame(Stream(Tokens(prompt), maxTokens)[i])
        == Some(Event(i, "token", "token_" + Decimal(i), Some(prompt)))
  {
    StreamDecodes(Tokens(prompt), maxTokens);
  }

  /**
   * `event_generator` sends exactly ten frames; frame `i` reads back as id
   * `i`, event "message", data "This is message <i+1>" and no prompt.
   */
  lemma EventGeneratorFrames()
    ensures |Stream(Messages, MessageCount)| == 10
    ensures forall i :: 0 <= i < 10 ==>
      DecodeFrame(Stream(Messages, MessageCount)[i])
        == Some(Event(i, "message", "This is message " + Decimal(i + 1), None))
  {
    StreamDecodes(Messages, MessageCount);
  }

  /** Decimal digits are plain text. */
  lemma NumeralIsPlain(n: nat)
    ensures AllPlain(Decimal(n))
  {
    var d := Decimal(n);
    assert AllDigits(d);
    forall k | 0 <= k < |d|
      ensures IsPlain(d[k])
    {
      assert IsDigit(d[k]);
    }
  }

  /** The fixed texts of the records need no escaping. */
  lemma TokenWordsArePlain()
    ensures AllPlain("token") && AllPlain("token_")
  {
  }

  lemma MessageWordsArePlain()
    ensures AllPlain("message") && AllPlain("This is message ")
  {
  }

  /** A plain prefix followed by a numeral is quoted verbatim. */
  lemma NumberedTextQuotesVerbatim(prefix: string, n: nat)
    requires AllPlain(prefix)
    ensures Quote(prefix + Decimal(n)) == Verbatim(prefix + Decimal(n))
  {
    NumeralIsPlain(n);
    PlainConcat(prefix, Decimal(n));
    PlainTextQuotesVerbatim(prefix + Decimal(n));
  }

  /**
   * The exact text of token frame `i`: the `data: ` prefix, the payload with
   * keys id, event, data, prompt in that order and the default separators,
   * and the blank line. The numbers and the fixed texts appear verbatim; the
   * prompt is the only part `json.dumps` may escape.
   */
  lemma TokenFrameText(prompt: string, i: nat)
    ensures Frame(EventAt(Tokens(prompt), i))
         == "data: "
            + ("{\"id\": " + Decimal(i) + ", \"event\": " + Verbatim("token") + ", \"data\": " + Verbatim("token_" + Decimal(i))
               + ", \"prompt\": " + Quote(prompt) + "}")
            + "\n\n"
  {
    var e := EventAt(Tokens(prompt), i);
    PayloadLayoutWithPrompt(e);
    assert EncodeInt(i) == Decimal(i);
    TokenWordsArePlain();
    PlainTextQuotesVerbatim("token");
    NumberedTextQuotesVerbatim("token_", i);
  }

  /**
   * The exact text of message frame `i`: keys id, event, data in that order,
   * the message numbered `i + 1`, and no `prompt` key.
   */
  lemma MessageFrameText(i: nat)
    ensures Frame(EventAt(Messages, i))
         == "data: "
            + ("{\"id\": " + Decimal(i) + ", \"event\": " + Verbatim("message") + ", \"data\": "
               + Verbatim("This is message " + Decimal(i + 1)) + "}")
            + "\n\n"
  {
    var e := EventAt(Messages, i);
    PayloadLayoutWithoutPrompt(e);
    assert EncodeInt(i) == Decimal(i);
    MessageWordsArePlain();
    PlainTextQuotesVerbatim("message");
    NumberedTextQuotesVerbatim("This is message ", i + 1);
  }

  /** A request without `max_tokens` streams 100 token frames, ids 0 to 99. */
  lemma DefaultRequestStream(prompt: string)
    ensures var r := PromptRequest(prompt);
      |Stream(Tokens(r.prompt), r.maxTokens)| == 100
      && Stream(Tokens(r.prompt), r.maxTokens)[99] == Frame(Event(99, "token", "token_99", Some(prompt)))
  {
    LastDefaultToken();
    assert EventAt(Tokens(prompt), 99) == Event(99, "token", "token_99", Some(prompt));
  }

  lemma LastDefaultToken()
    ensures "token_" + Decimal(DefaultMaxTokens - 1) == "token_99"
  {
    assert Decimal(9) == [DigitChar(9)];
    assert DigitChar(9) == '9';
    assert Decimal(99) == Decimal(9) + [DigitChar(9)];
  }
}
