/**
 * The record each generator builds per iteration and the Server-Sent-Events
 * frame it is sent in: `"data: " + json.dumps(record) + "\n\n"`, one `data:`
 * line ended by a blank line (section 9.2.5, "Parsing an event stream", of
 * the WHATWG HTML Living Standard). The record's `id` and `event` are keys of
 * the JSON payload, not SSE `id:` or `event:` fields.
 */
module Sse {
  import opened Wrappers
  import opened Numerals
  import opened JsonString
  import opened JsonObject

  /**
   * The dict literal of one iteration: `id`, `event`, `data`, and `prompt`
   * only for the prompt-driven generator.
   */
  datatype Event = Event(id: int, event: string, data: string, prompt: Option<string>)

  /** The dict's items in insertion order. */
  function Members(e: Event): (ms: seq<Member>)
    ensures |ms| == if e.prompt.Some? then 4 else 3
  {
    var common := [Member("id", Int(e.id)), Member("event", Str(e.event)), Member("data", Str(e.data))];
    match e.prompt
    case None => common
    case Some(p) => common + [Member("prompt", Str(p))]
  }

  /** Reads a record back from its items; any other key, order or value kind is rejected. */
  function FromMembers(ms: seq<Member>): (r: Option<Event>)
  {
    if (|ms| == 3 || |ms| == 4)
       && ms[0].key == "id" && ms[0].value.Int?
       && ms[1].key == "event" && ms[1].value.Str?
       && ms[2].key == "data" && ms[2].value.Str?
    then
      if |ms| == 3 then Some(Event(ms[0].value.i, ms[1].value.s, ms[2].value.s, None))
      else if ms[3].key == "prompt" && ms[3].value.Str? then
        Some(Event(ms[0].value.i, ms[1].value.s, ms[2].value.s, Some(ms[3].value.s)))
      else None
    else None
  }

  /** `json.dumps(record)`. */
  function Payload(e: Event): string
  {
    EncodeObject(Members(e))
  }

  const DataField: string := "data: "
  const EventEnd: string := "\n\n"

  /** One SSE frame: the `data:` line holding the payload, then the blank line that ends the event. */
  function Frame(e: Event): string
  {
    DataField + Payload(e) + EventEnd
  }

  /** Reads a record back from one frame. */
  function DecodeFrame(f: string): Option<Event>
  {
    if |f| >= |DataField| + |EventEnd| && f[..|DataField|] == DataField && f[|f| - |EventEnd|..] == EventEnd then
      match DecodeObject(f[|DataField|..|f| - |EventEnd|])
      case None => None
      case Some((ms, rest)) => if rest == [] then FromMembers(ms) else None
    else None
  }

  /** The four keys are plain ASCII, so `json.dumps` writes them as typed, between quotes. */
  lemma IdKey()
    ensures Quote("id") == "\"id\""
  {
    EscapeKeepsPlainText("id");
  }

  lemma EventKey()
    ensures Quote("event") == "\"event\""
  {
    EscapeKeepsPlainText("event");
  }

  lemma DataKey()
    ensures Quote("data") == "\"data\""
  {
    EscapeKeepsPlainText("data");
  }

  lemma PromptKey()
    ensures Quote("prompt") == "\"prompt\""
  {
    EscapeKeepsPlainText("prompt");
  }

  /** One unfolding of `EncodeMembers`, taken explicitly to keep the layout proofs small. */
  lemma MembersCons(ms: seq<Member>)
    requires |ms| >= 2
    ensures EncodeMembers(ms) == EncodeMember(ms[0]) + ", " + EncodeMembers(ms[1..])
  {
  }

  lemma PayloadMembers3(e: Event)
    requires e.prompt.None?
    ensures Payload(e) == "{" + ((Quote("id") + ": " + EncodeInt(e.id)) + ", "
                               + ((Quote("event") + ": " + Quote(e.event)) + ", "
                               + (Quote("data") + ": " + Quote(e.data)))) + "}"
  {
    var m0, m1, m2 := Member("id", Int(e.id)), Member("event", Str(e.event)), Member("data", Str(e.data));
    assert Members(e) == [m0, m1, m2];
    MembersCons([m0, m1, m2]);
    assert [m0, m1, m2][1..] == [m1, m2];
    MembersCons([m1, m2]);
    assert [m1, m2][1..] == [m2];
  }

  lemma PayloadMembers4(e: Event)
    requires e.prompt.Some?
    ensures Payload(e) == "{" + ((Quote("id") + ": " + EncodeInt(e.id)) + ", "
                               + ((Quote("event") + ": " + Quote(e.event)) + ", "
                               + ((Quote("data") + ": " + Quote(e.data)) + ", "
                               + (Quote("prompt") + ": " + Quote(e.prompt.value))))) + "}"
  {
    var ms := Members(e);
    MembersCons(ms);
    MembersCons(ms[1..]);
    MembersCons(ms[1..][1..]);
    assert ms[1..][1..][1..] == [ms[3]];
  }

  /**
   * Merges the quoted keys into the fixed text around them. Stated over plain
   * strings so that no encoder definition is in scope while the solver does it.
   */
  lemma Layout3(qi: string, qe: string, qd: string, i: string, e: string, d: string)
    requires qi == "\"id\"" && qe == "\"event\"" && qd == "\"data\""
    ensures "{" + ((qi + ": " + i) + ", " + ((qe + ": " + e) + ", " + (qd + ": " + d))) + "}"
         == "{\"id\": " + i + ", \"event\": " + e + ", \"data\": " + d + "}"
  {
  }

  /** As `Layout3`, with the `prompt` member last. */
  lemma Layout4(qi: string, qe: string, qd: string, qp: string, i: string, e: string, d: string, p: string)
    requires qi == "\"id\"" && qe == "\"event\"" && qd == "\"data\"" && qp == "\"prompt\""
    ensures "{" + ((qi + ": " + i) + ", " + ((qe + ": " + e) + ", " + ((qd + ": " + d) + ", " + (qp + ": " + p)))) + "}"
         == "{\"id\": " + i + ", \"event\": " + e + ", \"data\": " + d + ", \"prompt\": " + p + "}"
  {
  }

  /**
   * The payload text of a record without a prompt: keys in the order id,
   * event, data, `": "` after each key and `", "` between members, and no
   * `prompt` key at all.
   */
  lemma PayloadLayoutWithoutPrompt(e: Event)
    requires e.prompt.None?
    ensures Payload(e) == "{\"id\": " + EncodeInt(e.id) + ", \"event\": " + Quote(e.event)
                          + ", \"data\": " + Quote(e.data) + "}"
  {
    PayloadMembers3(e);
    IdKey();
    EventKey();
    DataKey();
    Layout3(Quote("id"), Quote("event"), Quote("data"), EncodeInt(e.id), Quote(e.event), Quote(e.data));
  }

  /** The payload text of a record with a prompt: as above, then the `prompt` member last. */
  lemma PayloadLayoutWithPrompt(e: Event)
    requires e.prompt.Some?
    ensures Payload(e) == "{\"id\": " + EncodeInt(e.id) + ", \"event\": " + Quote(e.event)
                          + ", \"data\": " + Quote(e.data) + ", \"prompt\": " + Quote(e.prompt.value) + "}"
  {
    PayloadMembers4(e);
    IdKey();
    EventKey();
    DataKey();
    PromptKey();
    Layout4(Quote("id"), Quote("event"), Quote("data"), Quote("prompt"),
            EncodeInt(e.id), Quote(e.event), Quote(e.data), Quote(e.prompt.value));
  }

  predicate IsLineBreak(c: char) { c == '\n' || c == '\r' }

  lemma RecordRoundTrip(e: Event)
    ensures FromMembers(Members(e)) == Some(e)
  {
  }

  /** A frame reads back as the record it was written from. */
  lemma FrameRoundTrip(e: Event)
    ensures DecodeFrame(Frame(e)) == Some(e)
  {
    var f := Frame(e);
    assert f[..|DataField|] == DataField;
    assert f[|f| - |EventEnd|..] == EventEnd;
    assert f[|DataField|..|f| - |EventEnd|] == Payload(e) + [];
    ObjectRoundTrip(Members(e), []);
    RecordRoundTrip(e);
  }

  /** Two frames are equal exactly when their records are. */
  lemma FrameInjective(e1: Event, e2: Event)
    ensures Frame(e1) == Frame(e2) <==> e1 == e2
  {
    FrameRoundTrip(e1);
    FrameRoundTrip(e2);
  }

  /** Any printable payload between the `data: ` prefix and the two newlines makes one event. */
  lemma OneEventShape(j: string)
    requires AllPrintable(j)
    ensures var f := DataField + j + EventEnd;
      forall k :: 0 <= k < |f| ==> (IsLineBreak(f[k]) <==> k >= |f| - 2) && (IsLineBreak(f[k]) ==> f[k] == '\n')
  {
    var f := DataField + j + EventEnd;
    forall k | 0 <= k < |f|
      ensures (IsLineBreak(f[k]) <==> k >= |f| - 2) && (IsLineBreak(f[k]) ==> f[k] == '\n')
    {
      if k < |DataField| {
        assert f[k] == DataField[k];
      } else if k < |DataField| + |j| {
        assert f[k] == j[k - |DataField|];
      } else {
        assert f[k] == EventEnd[k - |DataField| - |j|];
      }
    }
  }

  /**
   * A frame is exactly one event: its only line breaks are the two newlines
   * at its end, the first ending the `data:` line and the second the event.
   */
  lemma FrameIsOneEvent(e: Event)
    ensures var f := Frame(e);
      forall k :: 0 <= k < |f| ==> (IsLineBreak(f[k]) <==> k >= |f| - 2) && (IsLineBreak(f[k]) ==> f[k] == '\n')
  {
    OneEventShape(Payload(e));
  }
}
