/**
 * Journal line encodings. JSON.stringify without indentation writes one line:
 * strings are escaped as section 7 of RFC 8259 demands, so no control
 * character, in particular no newline, survives in the output.
 *
 * An event is its event_id together with one string holding all other members. What a
 * parser makes of a text that this program does not write itself is left open.
 */
module Codec {
  import opened Basics

  datatype Event = Event(eventId: Bytes, body: Bytes)

  const QUOTE: byte := 0x22
  const BACKSLASH: byte := 0x5C

  const EVENT_HEAD: Bytes := Ascii("{\"event_id\":\"")
  const EVENT_MIDDLE: Bytes := Ascii(",\"body\":\"")
  const CLOSE_BRACE: Bytes := Ascii("}")
  const FAILED_HEAD: Bytes := Ascii("{\"detail\":\"")
  const FAILED_MIDDLE: Bytes := Ascii(",\"event\":")

  /** How the parser reads any other text: as some event, as some record's event_id, or not at all. */
  const OTHER_EVENT: Bytes -> Option<Event>
  const OTHER_FAILED: Bytes -> Option<Bytes>

  // ---------- JSON strings ----------

  function HexDigit(n: byte): (c: byte)
    requires n < 16
    ensures 0x30 <= c < 0x3A || 0x61 <= c < 0x67
  {
    if n < 10 then 0x30 + n else 0x57 + n
  }

  function HexValue(c: byte): Option<byte> {
    if 0x30 <= c < 0x3A then Some(c - 0x30)
    else if 0x61 <= c < 0x67 then Some(c - 0x57)
    else None
  }

  /** The letter of the short escape of a control character, where one exists. */
  function ShortEscape(b: byte): Option<byte> {
    if b == 0x08 then Some(0x62)
    else if b == 0x09 then Some(0x74)
    else if b == 0x0A then Some(0x6E)
    else if b == 0x0C then Some(0x66)
    else if b == 0x0D then Some(0x72)
    else if b == QUOTE || b == BACKSLASH then Some(b)
    else None
  }

  function UnescapeLetter(c: byte): Option<byte> {
    if c == 0x62 then Some(0x08)
    else if c == 0x74 then Some(0x09)
    else if c == 0x6E then Some(0x0A)
    else if c == 0x66 then Some(0x0C)
    else if c == 0x72 then Some(0x0D)
    else if c == QUOTE || c == BACKSLASH then Some(c)
    else None
  }

  function EscapeByte(b: byte): Bytes {
    match ShortEscape(b)
    case Some(letter) => [BACKSLASH, letter]
    case None =>
      if b < 0x20 then [BACKSLASH, 0x75, 0x30, 0x30, HexDigit(b / 16), HexDigit(b % 16)]
      else [b]
  }

  function Escape(s: Bytes): Bytes {
    if s == [] then [] else EscapeByte(s[0]) + Escape(s[1..])
  }

  /** One character of a JSON string body and the number of bytes it took. */
  function ReadByte(t: Bytes): (r: Option<(byte, nat)>)
    ensures r.Some? ==> 0 < r.value.1 <= |t|
  {
    if |t| == 0 || t[0] < 0x20 || t[0] == QUOTE then None
    else if t[0] != BACKSLASH then Some((t[0], 1))
    else if |t| < 2 then None
    else if UnescapeLetter(t[1]).Some? then Some((UnescapeLetter(t[1]).value, 2))
    else if |t| < 6 || t[1] != 0x75 || t[2] != 0x30 || t[3] != 0x30 then None
    else match (HexValue(t[4]), HexValue(t[5]))
      case (Some(high), Some(low)) => Some(((high as int * 16 + low as int) as byte, 6))
      case _ => None
  }

  /** A JSON string body up to its closing quote, and what follows the quote. */
  function ReadString(t: Bytes): (r: Option<(Bytes, Bytes)>)
    decreases |t|
  {
    if t == [] then None
    else if t[0] == QUOTE then Some(([], t[1..]))
    else match ReadByte(t)
      case None => None
      case Some((b, width)) =>
        match ReadString(t[width..])
        case None => None
        case Some((s, rest)) => Some(([b] + s, rest))
  }

  lemma ReadEscapedByte(b: byte, rest: Bytes)
    ensures var e := EscapeByte(b);
            0 < |e| && e[0] != QUOTE && NewlineFree(e) && ReadByte(e + rest) == Some((b, |e|))
  {
    var e := EscapeByte(b);
    var t := e + rest;
    if ShortEscape(b).Some? {
      assert t[0] == BACKSLASH && t[1] == ShortEscape(b).value;
    } else if b < 0x20 {
      assert t[1] == 0x75 && t[2] == 0x30 && t[3] == 0x30;
      assert t[4] == HexDigit(b / 16) && t[5] == HexDigit(b % 16);
      assert HexValue(t[4]) == Some(b / 16) && HexValue(t[5]) == Some(b % 16);
    } else {
      assert t[0] == b;
    }
  }

  /** Reading an escaped string back gives the string, whatever its bytes are. */
  lemma {:induction false} ReadStringRoundTrip(s: Bytes, rest: Bytes)
    ensures ReadString(Escape(s) + [QUOTE] + rest) == Some((s, rest))
  {
    var t := Escape(s) + [QUOTE] + rest;
    if s == [] {
      assert t[0] == QUOTE && t[1..] == rest;
    } else {
      var e := EscapeByte(s[0]);
      var tail := Escape(s[1..]) + [QUOTE] + rest;
      assert t == e + tail;
      ReadEscapedByte(s[0], tail);
      assert t[|e|..] == tail;
      ReadStringRoundTrip(s[1..], rest);
      assert [s[0]] + s[1..] == s;
    }
  }

  lemma {:induction false} EscapeNewlineFree(s: Bytes)
    ensures NewlineFree(Escape(s))
  {
    if s != [] {
      ReadEscapedByte(s[0], []);
      EscapeNewlineFree(s[1..]);
    }
  }

  /** A member: everything up to and including the opening quote, the string, its closing quote. */
  function Member(head: Bytes, s: Bytes): Bytes {
    head + Escape(s) + [QUOTE]
  }

  function StripPrefix(p: Bytes, t: Bytes): Option<Bytes> {
    if p <= t then Some(t[|p|..]) else None
  }

  function ReadMember(head: Bytes, t: Bytes): Option<(Bytes, Bytes)> {
    match StripPrefix(head, t)
    case None => None
    case Some(rest) => ReadString(rest)
  }

  lemma ReadMemberRoundTrip(head: Bytes, s: Bytes, rest: Bytes)
    ensures ReadMember(head, Member(head, s) + rest) == Some((s, rest))
  {
    var t := Member(head, s) + rest;
    assert t[|head|..] == Escape(s) + [QUOTE] + rest;
    ReadStringRoundTrip(s, rest);
  }

  lemma MemberNewlineFree(head: Bytes, s: Bytes)
    requires NewlineFree(head)
    ensures NewlineFree(Member(head, s))
  {
    EscapeNewlineFree(s);
  }

  // ---------- Events and failed-journal records ----------

  function Encode(e: Event): Bytes {
    Member(EVENT_HEAD, e.eventId) + (Member(EVENT_MIDDLE, e.body) + CLOSE_BRACE)
  }

  /** An event in the text Encode writes. */
  function DecodeOwn(line: Bytes): Option<Event> {
    match ReadMember(EVENT_HEAD, line)
    case None => None
    case Some((eventId, t)) =>
      match ReadMember(EVENT_MIDDLE, t)
      case None => None
      case Some((body, rest)) => if rest == CLOSE_BRACE then Some(Event(eventId, body)) else None
  }

  /** JSON.parse of an event line, with the check of its event_id. */
  function Decode(line: Bytes): Option<Event> {
    match DecodeOwn(line)
    case Some(e) => Some(e)
    case None => OTHER_EVENT(line)
  }

  /** One failed.jsonl record: the bookkeeping members, then the event itself. */
  function EncodeFailed(detail: Bytes, e: Event): Bytes {
    Member(FAILED_HEAD, detail) + (FAILED_MIDDLE + (Encode(e) + CLOSE_BRACE))
  }

  /** The event_id inside a failed.jsonl record in the text EncodeFailed writes. */
  function DecodeOwnFailed(line: Bytes): Option<Bytes> {
    match ReadMember(FAILED_HEAD, line)
    case None => None
    case Some((_, t)) =>
      match StripPrefix(FAILED_MIDDLE, t)
      case None => None
      case Some(rest) =>
        if rest == [] || rest[|rest| - 1..] != CLOSE_BRACE then None
        else match DecodeOwn(rest[..|rest| - 1])
          case None => None
          case Some(e) => Some(e.eventId)
  }

  /** JSON.parse of a failed.jsonl line, with the check of its event.event_id. */
  function DecodeFailed(line: Bytes): Option<Bytes> {
    match DecodeOwnFailed(line)
    case Some(id) => Some(id)
    case None => OTHER_FAILED(line)
  }

  lemma LiteralsNewlineFree()
    ensures NewlineFree(EVENT_HEAD) && NewlineFree(EVENT_MIDDLE) && NewlineFree(CLOSE_BRACE)
    ensures NewlineFree(FAILED_HEAD) && NewlineFree(FAILED_MIDDLE)
  {
  }

  lemma EventRoundTrip(e: Event)
    ensures DecodeOwn(Encode(e)) == Some(e)
    ensures Decode(Encode(e)) == Some(e)
  {
    ReadMemberRoundTrip(EVENT_HEAD, e.eventId, Member(EVENT_MIDDLE, e.body) + CLOSE_BRACE);
    ReadMemberRoundTrip(EVENT_MIDDLE, e.body, CLOSE_BRACE);
  }

  lemma EventNewlineFree(e: Event)
    ensures NewlineFree(Encode(e))
  {
    LiteralsNewlineFree();
    MemberNewlineFree(EVENT_HEAD, e.eventId);
    MemberNewlineFree(EVENT_MIDDLE, e.body);
  }

  lemma FailedRoundTrip(detail: Bytes, e: Event)
    ensures DecodeFailed(EncodeFailed(detail, e)) == Some(e.eventId)
  {
    var rest := Encode(e) + CLOSE_BRACE;
    ReadMemberRoundTrip(FAILED_HEAD, detail, FAILED_MIDDLE + rest);
    assert StripPrefix(FAILED_MIDDLE, FAILED_MIDDLE + rest) == Some(rest);
    assert rest[..|rest| - 1] == Encode(e) && rest[|rest| - 1..] == CLOSE_BRACE;
    EventRoundTrip(e);
  }

  lemma FailedNewlineFree(detail: Bytes, e: Event)
    ensures NewlineFree(EncodeFailed(detail, e))
  {
    LiteralsNewlineFree();
    MemberNewlineFree(FAILED_HEAD, detail);
    EventNewlineFree(e);
  }
}
