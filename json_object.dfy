/**
 * JSON objects as Python's `json.dumps` writes a dict with its default
 * separators: `{`, then the members in insertion order, each `"key": value`
 * with `": "` between key and value and `", "` between members, then `}`.
 * Values here are the two kinds the frame records hold: integers and strings.
 * A reader for this layout is the inverse of the writer, used to state round trips.
 */
module JsonObject {
  import opened Wrappers
  import opened Numerals
  import opened JsonString

  datatype Value = Int(i: int) | Str(s: string)

  /** One key/value pair of a dict, kept in insertion order. */
  datatype Member = Member(key: string, value: Value)

  /** `json.dumps` of a Python int: its decimal spelling, with a minus sign when negative. */
  function EncodeInt(i: int): (s: string)
    ensures AllPrintable(s)
    ensures |s| >= 1
  {
    if i < 0 then "-" + Decimal(-i) else Decimal(i)
  }

  function EncodeValue(v: Value): (s: string)
    ensures AllPrintable(s) && |s| >= 1
  {
    match v
    case Int(i) => EncodeInt(i)
    case Str(t) => Quote(t)
  }

  function EncodeMember(m: Member): (s: string)
    ensures AllPrintable(s)
  {
    Quote(m.key) + ": " + EncodeValue(m.value)
  }

  /** The members joined by the default item separator `", "`. */
  function EncodeMembers(ms: seq<Member>): (s: string)
    ensures AllPrintable(s)
  {
    if |ms| == 0 then ""
    else if |ms| == 1 then EncodeMember(ms[0])
    else EncodeMember(ms[0]) + ", " + EncodeMembers(ms[1..])
  }

  function EncodeObject(ms: seq<Member>): (s: string)
    ensures AllPrintable(s)
    ensures |s| >= 2 && s[0] == '{' && s[|s| - 1] == '}'
  {
    "{" + EncodeMembers(ms) + "}"
  }

  /** Reads an integer, with an optional minus sign, at the front of `s`. */
  function DecodeInt(s: string): (r: Option<(int, string)>)
    ensures r.Some? ==> |r.value.1| < |s|
  {
    if |s| > 0 && s[0] == '-' then
      match ParseNat(s[1..])
      case None => None
      case Some((n, rest)) => if n == 0 then None else Some((-(n as int), rest))
    else
      match ParseNat(s)
      case None => None
      case Some((n, rest)) => Some((n, rest))
  }

  function DecodeValue(s: string): (r: Option<(Value, string)>)
    ensures r.Some? ==> |r.value.1| < |s|
  {
    if |s| > 0 && s[0] == '"' then
      match DecodeString(s)
      case None => None
      case Some((t, rest)) => Some((Str(t), rest))
    else
      match DecodeInt(s)
      case None => None
      case Some((i, rest)) => Some((Int(i), rest))
  }

  function DecodeMember(s: string): (r: Option<(Member, string)>)
    ensures r.Some? ==> |r.value.1| < |s|
  {
    match DecodeString(s)
    case None => None
    case Some((k, rest)) =>
      if |rest| >= 2 && rest[0] == ':' && rest[1] == ' ' then
        match DecodeValue(rest[2..])
        case None => None
        case Some((v, rest')) => Some((Member(k, v), rest'))
      else None
  }

  /** Reads one or more members and the closing brace. */
  function DecodeMembers(s: string): (r: Option<(seq<Member>, string)>)
    ensures r.Some? ==> |r.value.1| < |s|
    decreases |s|
  {
    match DecodeMember(s)
    case None => None
    case Some((m, rest)) =>
      if |rest| >= 2 && rest[0] == ',' && rest[1] == ' ' then
        match DecodeMembers(rest[2..])
        case None => None
        case Some((ms, rest')) => Some(([m] + ms, rest'))
      else if |rest| >= 1 && rest[0] == '}' then Some(([m], rest[1..]))
      else None
  }

  /** Reads an object at the front of `s`; returns its members in order and what follows it. */
  function DecodeObject(s: string): (r: Option<(seq<Member>, string)>)
    ensures r.Some? ==> |r.value.1| < |s|
  {
    if |s| >= 2 && s[0] == '{' && s[1] == '}' then Some(([], s[2..]))
    else if |s| >= 1 && s[0] == '{' then DecodeMembers(s[1..])
    else None
  }

  /** What may follow a value in an object: the item separator or the closing brace. */
  predicate FollowsValue(rest: string)
  {
    |rest| >= 1 && (rest[0] == ',' || rest[0] == '}')
  }

  lemma NegativeIntRoundTrip(i: int, rest: string)
    requires i < 0 && FollowsValue(rest)
    ensures DecodeInt(EncodeInt(i) + rest) == Some((i, rest))
  {
    var t := Decimal(-i) + rest;
    Associate("-", Decimal(-i), rest);
    ParseDecimal(-i, rest);
    var s := "-" + t;
    assert s[0] == '-';
    assert s[1..] == t;
    assert ParseNat(s[1..]) == Some((-i, rest));
  }

  lemma NonNegativeIntRoundTrip(i: int, rest: string)
    requires i >= 0 && FollowsValue(rest)
    ensures DecodeInt(EncodeInt(i) + rest) == Some((i, rest))
  {
    var s := Decimal(i) + rest;
    assert EncodeInt(i) + rest == s;
    ParseDecimal(i, rest);
    assert IsDigit(s[0]);
  }

  lemma IntRoundTrip(i: int, rest: string)
    requires FollowsValue(rest)
    ensures DecodeInt(EncodeInt(i) + rest) == Some((i, rest))
  {
    if i < 0 {
      NegativeIntRoundTrip(i, rest);
    } else {
      NonNegativeIntRoundTrip(i, rest);
    }
  }

  lemma ValueRoundTrip(v: Value, rest: string)
    requires FollowsValue(rest)
    ensures DecodeValue(EncodeValue(v) + rest) == Some((v, rest))
  {
    match v
    case Int(i) =>
      IntRoundTrip(i, rest);
    case Str(t) =>
      QuoteRoundTrip(t, rest);
  }

  /** Reading a member: its key, the `": "` separator, then its value. */
  lemma MemberDecodes(s: string, k: string, t: string, v: Value, rest: string)
    requires DecodeString(s) == Some((k, ": " + t))
    requires DecodeValue(t) == Some((v, rest))
    ensures DecodeMember(s) == Some((Member(k, v), rest))
  {
    assert (": " + t)[2..] == t;
  }

  lemma MemberRoundTrip(m: Member, rest: string)
    requires FollowsValue(rest)
    ensures DecodeMember(EncodeMember(m) + rest) == Some((m, rest))
  {
    var t := EncodeValue(m.value) + rest;
    Associate(Quote(m.key), ": ", EncodeValue(m.value));
    Associate(Quote(m.key), ": " + EncodeValue(m.value), rest);
    Associate(": ", EncodeValue(m.value), rest);
    QuoteRoundTrip(m.key, ": " + t);
    ValueRoundTrip(m.value, rest);
    MemberDecodes(EncodeMember(m) + rest, m.key, t, m.value, rest);
  }

  /** Reading members: one member and then the closing brace. */
  lemma LastMemberDecodes(s: string, m: Member, rest: string)
    requires DecodeMember(s) == Some((m, "}" + rest))
    ensures DecodeMembers(s) == Some(([m], rest))
  {
    assert ("}" + rest)[1..] == rest;
  }

  /** Reading members: one member, the item separator, and the members after it. */
  lemma NextMemberDecodes(s: string, m: Member, tail: string, ms: seq<Member>, rest: string)
    requires DecodeMember(s) == Some((m, ", " + tail))
    requires DecodeMembers(tail) == Some((ms, rest))
    ensures DecodeMembers(s) == Some(([m] + ms, rest))
  {
    assert (", " + tail)[2..] == tail;
  }

  lemma SingleMemberRoundTrip(m: Member, rest: string)
    ensures DecodeMembers(EncodeMembers([m]) + "}" + rest) == Some(([m], rest))
  {
    assert EncodeMembers([m]) + "}" + rest == EncodeMember(m) + ("}" + rest);
    MemberRoundTrip(m, "}" + rest);
    LastMemberDecodes(EncodeMembers([m]) + "}" + rest, m, rest);
  }

  lemma MembersSplit(ms: seq<Member>, rest: string)
    requires |ms| >= 2
    ensures EncodeMembers(ms) + "}" + rest == EncodeMember(ms[0]) + (", " + (EncodeMembers(ms[1..]) + "}" + rest))
  {
    Regroup(EncodeMember(ms[0]), ", ", EncodeMembers(ms[1..]), "}", rest);
  }

  lemma {:induction false} MembersRoundTrip(ms: seq<Member>, rest: string)
    requires |ms| >= 1
    ensures DecodeMembers(EncodeMembers(ms) + "}" + rest) == Some((ms, rest))
  {
    if |ms| == 1 {
      assert ms == [ms[0]];
      SingleMemberRoundTrip(ms[0], rest);
    } else {
      var tail := EncodeMembers(ms[1..]) + "}" + rest;
      var s := EncodeMembers(ms) + "}" + rest;
      MembersSplit(ms, rest);
      MemberRoundTrip(ms[0], ", " + tail);
      MembersRoundTrip(ms[1..], rest);
      NextMemberDecodes(s, ms[0], tail, ms[1..], rest);
      assert [ms[0]] + ms[1..] == ms;
    }
  }

  lemma MembersStartWithQuote(ms: seq<Member>)
    requires |ms| >= 1
    ensures |EncodeMembers(ms)| >= 1 && EncodeMembers(ms)[0] == '"'
  {
    var q := Quote(ms[0].key);
    if |ms| == 1 {
      assert EncodeMembers(ms) == q + ": " + EncodeValue(ms[0].value);
    } else {
      assert EncodeMembers(ms) == q + ": " + EncodeValue(ms[0].value) + ", " + EncodeMembers(ms[1..]);
    }
  }

  lemma OpenBraceThenMembers(t: string)
    requires |t| >= 1 && t[0] == '"'
    ensures DecodeObject("{" + t) == DecodeMembers(t)
  {
    var s := "{" + t;
    assert s[1] == '"';
    assert s[1..] == t;
  }

  lemma NonEmptyObjectRoundTrip(ms: seq<Member>, rest: string)
    requires |ms| >= 1
    ensures DecodeObject(EncodeObject(ms) + rest) == Some((ms, rest))
  {
    var t := EncodeMembers(ms) + "}" + rest;
    MembersStartWithQuote(ms);
    Regroup("", "{", EncodeMembers(ms), "}", rest);
    assert EncodeObject(ms) + rest == "{" + t;
    OpenBraceThenMembers(t);
    MembersRoundTrip(ms, rest);
  }

  /** An object written by `json.dumps` reads back as the same members in the same order. */
  lemma ObjectRoundTrip(ms: seq<Member>, rest: string)
    ensures DecodeObject(EncodeObject(ms) + rest) == Some((ms, rest))
  {
    if ms == [] {
      var s := EncodeObject(ms) + rest;
      assert s[2..] == rest;
    } else {
      NonEmptyObjectRoundTrip(ms, rest);
    }
  }
}
