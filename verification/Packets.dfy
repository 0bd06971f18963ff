/** MQTT 3.1.1 control packets: fixed header (section 2.2) and PUBLISH (section 3.3).
    Bit operations on a header byte are written as arithmetic: `b >> 4` is `b / 16`, `b & 0x0F` is `b % 16`. */
module Packets {
  import opened Basics
  import Varint

  const PUBLISH: nat := 3

  datatype Packet = Packet(kind: nat, flags: nat, body: Bytes)

  datatype Parsed<+T> = Parsed(value: T) | NoHeader | BadLength | BadType

  datatype Publish = Publish(topic: Bytes, payload: Bytes, packetId: Option<Bytes>)

  /** The packet types MQTTEnum knows; 0 and 15 are reserved. */
  predicate ValidKind(kind: nat) { 1 <= kind <= 14 }

  function BuildHeader(remaining: nat, kind: nat, flags: nat): Bytes
    requires kind < 16
  {
    [kind * 16 + flags % 16] + Varint.Encode(remaining)
  }

  /** MQTTPacket.build: the body is the variable header followed by the payload. */
  function Build(p: Packet): Bytes
    requires p.kind < 16
  {
    BuildHeader(|p.body|, p.kind, p.flags) + p.body
  }

  function ParsePacket(raw: Bytes): Parsed<Packet> {
    if raw == [] then NoHeader
    else match Varint.Decode(raw, 1)
         case Value(remaining, consumed) =>
           var body := raw[1 + consumed..][..Min(remaining, |raw| - 1 - consumed)];
           if ValidKind(raw[0] / 16) then Parsed(Packet(raw[0] / 16, raw[0] % 16, body)) else BadType
         case _ => BadLength
  }

  /** Length-prefixed string (section 1.5.3); None where the two-byte length overflows. */
  function EncodeString(s: Bytes): Option<Bytes> {
    if |s| < 65536 then Some(BigEndian(|s|, 2) + s) else None
  }

  function BuildPublish(topic: Bytes, payload: Bytes, packetId: Bytes, dup: bool): Option<Bytes> {
    match EncodeString(topic)
    case None => None
    case Some(t) =>
      var body := t + packetId + payload;
      Some([if dup then 0x3A else 0x32] + Varint.Encode(|body|) + body)
  }

  function ParsePublish(p: Packet): Option<Publish> {
    var body := p.body;
    if |body| < 2 then None
    else
      var topicEnd := 2 + FromBigEndian(body[..2]);
      if |body| < topicEnd then None
      else
        var topic := body[2..topicEnd];
        if p.flags / 2 % 4 == 0 then Some(Publish(topic, body[topicEnd..], None))
        else if |body| < topicEnd + 2 then None
        else Some(Publish(topic, body[topicEnd + 2..], Some(body[topicEnd..topicEnd + 2])))
  }

  /** The length of the complete packet at the front of `buf`, if there is one. */
  function FrameLength(buf: Bytes): (r: Option<nat>)
    ensures r.Some? ==> 2 <= r.value <= |buf|
  {
    if |buf| < 2 then None
    else match Varint.Decode(buf, 1)
         case Value(remaining, consumed) =>
           if |buf| < 1 + consumed + remaining then None else Some(1 + consumed + remaining)
         case _ => None
  }

  /** A header byte, a canonical length and a body: one frame whatever follows it, and
      parsing returns the two header nibbles and the body. */
  lemma FrameRoundTrip(first: byte, body: Bytes, rest: Bytes)
    requires |body| < Varint.LIMIT
    ensures var raw := [first] + Varint.Encode(|body|) + body;
            && FrameLength(raw + rest) == Some(|raw|)
            && ParsePacket(raw) == if ValidKind(first / 16) then Parsed(Packet(first / 16, first % 16, body))
                 else BadType
  {
    var raw := [first] + Varint.Encode(|body|) + body;
    Varint.RoundTrip([first], |body|, body + rest);
    Varint.RoundTrip([first], |body|, body);
    assert raw + rest == [first] + Varint.Encode(|body|) + (body + rest);
    assert raw[1 + |Varint.Encode(|body|)|..] == body && body[..|body|] == body;
  }

  /** Parsing undoes MQTTPacket.build for every valid type and every body MQTT can carry. */
  lemma BuildThenParse(p: Packet)
    requires ValidKind(p.kind) && |p.body| < Varint.LIMIT
    ensures ParsePacket(Build(p)) == Parsed(p.(flags := p.flags % 16))
    ensures FrameLength(Build(p)) == Some(|Build(p)|)
  {
    FrameRoundTrip(p.kind * 16 + p.flags % 16, p.body, []);
    assert Build(p) + [] == Build(p);
  }

  /** The fields of a PUBLISH header (section 3.3.1): DUP is bit 3, QoS bits 2 and 1, RETAIN
      bit 0. */
  predicate Dup(flags: nat) { flags / 8 % 2 == 1 }
  function QoS(flags: nat): nat { flags / 2 % 4 }
  predicate Retain(flags: nat) { flags % 2 == 1 }

  lemma FourParts(a: Bytes, b: Bytes, c: Bytes, d: Bytes)
    ensures var all := a + b + c + d;
            && all[..|a|] == a && all[|a|..|a| + |b|] == b
            && all[|a| + |b|..|a| + |b| + |c|] == c && all[|a| + |b| + |c|..] == d
  {
  }

  // ---- parsing, whatever the bytes -----------------------------------------------------------------

  /** A complete packet is a header byte, a length and the body it announces, whether or not the
      length is canonical; it parses to just these, unless its type is reserved. */
  lemma ParseExactly(raw: Bytes)
    requires FrameLength(raw) == Some(|raw|)
    ensures var p := ParsePacket(raw);
            && (if raw[0] < 16 || raw[0] >= 240 then p.BadType? else p.Parsed?)
            && (p.Parsed? ==>
                  && p.value.kind == raw[0] / 16 && p.value.flags == raw[0] % 16 && |p.value.body| < |raw|
                  && IsLength(raw[1..|raw| - |p.value.body|], |p.value.body|)
                  && raw == [raw[0]] + raw[1..|raw| - |p.value.body|] + p.value.body)
  {
    var d := Varint.DecodePrefix(raw[1..], 4);
    LengthRead(raw[1..]);
    hide Varint.DecodePrefix, IsLength;
    var c := d.consumed;
    assert raw[1..][..c] == raw[1..1 + c] && raw[1 + c..][..d.value] == raw[1 + c..];
    assert raw == [raw[0]] + raw[1..1 + c] + raw[1 + c..];
  }

  /** At most four groups that weigh `n`. */
  ghost predicate IsLength(groups: Bytes, n: nat) {
    |groups| <= 4 && Varint.Ends(groups) && Varint.Weight(groups) == n
  }

  lemma LengthRead(buf: Bytes)
    requires Varint.DecodePrefix(buf, 4).Value?
    ensures var d := Varint.DecodePrefix(buf, 4); IsLength(buf[..d.consumed], d.value)
  {
    Varint.DecodeWeighs(buf, 4);
    hide Varint.DecodePrefix, Varint.Weight, Varint.Ends;
  }

  /** The bytes of a PUBLISH body: length-prefixed topic, an id of two bytes if QoS is not 0,
      payload. */
  predicate Laid(p: Packet, pub: Publish) {
    && |pub.topic| < 0x1_0000
    && (if QoS(p.flags) == 0 then pub.packetId.None? else pub.packetId.Some? && |pub.packetId.value| == 2)
    && p.body == [|pub.topic| / 256, |pub.topic| % 256] + pub.topic
                 + (if pub.packetId.Some? then pub.packetId.value else []) + pub.payload
  }

  /** A PUBLISH body parses to exactly the fields it is laid out from, at any QoS, and fails to
      parse exactly if there are none. */
  lemma ParsePublishExactly(p: Packet, pub: Publish)
    ensures ParsePublish(p) == Some(pub) <==> Laid(p, pub)
  {
    if Laid(p, pub) { LaidIsParsed(p, pub); }
    if ParsePublish(p) == Some(pub) { ParsedIsLaid(p, pub); }
  }

  lemma LaidIsParsed(p: Packet, pub: Publish)
    requires Laid(p, pub)
    ensures ParsePublish(p) == Some(pub)
  {
    var len: Bytes := [|pub.topic| / 256, |pub.topic| % 256];
    var id := if pub.packetId.Some? then pub.packetId.value else [];
    TwoBytesRead(len);
    FourParts(len, pub.topic, id, pub.payload);
    hide FromBigEndian;
  }

  lemma ParsedIsLaid(p: Packet, pub: Publish)
    requires ParsePublish(p) == Some(pub)
    ensures Laid(p, pub)
  {
    var b := p.body;
    TwoBytesRead(b[..2]);
    hide FromBigEndian;
    var n := 256 * (b[0] as nat) + b[1];
    assert n / 256 == b[0] && n % 256 == b[1] && b[..2] == [b[0], b[1]];
    assert b == b[..2] + b[2..2 + n] + b[2 + n..];
    if QoS(p.flags) != 0 { assert b[2 + n..] == b[2 + n..4 + n] + b[4 + n..]; }
  }

  // ---- building ----------------------------------------------------------------------------------

  /** A built PUBLISH is one frame with QoS 1, not retained, and with the DUP bit as asked for;
      reading it back gives the same topic, payload and id. */
  lemma PublishRoundTrip(topic: Bytes, payload: Bytes, packetId: Bytes, dup: bool, rest: Bytes)
    requires |topic| < 65536 && |packetId| == 2 && 4 + |topic| + |payload| < Varint.LIMIT
    ensures var raw := BuildPublish(topic, payload, packetId, dup);
            && raw.Some?
            && FrameLength(raw.value + rest) == Some(|raw.value|)
            && var p := ParsePacket(raw.value);
               && p.Parsed? && p.value.kind == 3
               && p.value.flags < 16 && QoS(p.value.flags) == 1 && !Retain(p.value.flags)
               && (Dup(p.value.flags) <==> dup)
               && ParsePublish(p.value) == Some(Publish(topic, payload, Some(packetId)))
  {
    var body := BigEndian(|topic|, 2) + topic + packetId + payload;
    FrameRoundTrip(if dup then 0x3A else 0x32, body, rest);
    TwoBytes(|topic|);
    var flags := if dup then 10 else 2;
    assert QoS(flags) == 1 && !Retain(flags) && (Dup(flags) <==> dup);
    hide FrameLength, ParsePublish, BigEndian, Varint.Encode, QoS, Retain, Dup;
    ParsePublishExactly(Packet(PUBLISH, flags, body), Publish(topic, payload, Some(packetId)));
  }

  /** Only a topic whose length does not fit two bytes is refused. */
  lemma PublishRefused(topic: Bytes, payload: Bytes, packetId: Bytes, dup: bool)
    ensures BuildPublish(topic, payload, packetId, dup).None? <==> |topic| >= 0x1_0000
  {
  }
}
