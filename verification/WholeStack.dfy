/** From a list of signed application packets, through PUBLISH framing and an arbitrarily
    chunked byte stream read by interleaved tasks, back to the same list. */
module WholeStack {
  import opened Basics
  import opened Packets
  import AppCodec
  import Reader
  import Varint

  datatype Outgoing = Outgoing(topic: Bytes, packetId: Bytes, dup: bool, key: Bytes, fields: AppCodec.Fields)

  datatype Incoming = Incoming(topic: Bytes, packetId: Option<Bytes>, packet: AppCodec.AppPacket)

  /** The limits of the formats themselves: fixed field widths, two-byte string length,
      two-byte packet id, four-byte remaining length. */
  predicate Sendable(m: Outgoing) {
    && AppCodec.Fits(m.fields)
    && |m.topic| < 65536
    && |m.packetId| == 2
    && 4 + |m.topic| + AppCodec.MIN_PACKET_LEN + |m.fields.msg| < Varint.LIMIT
  }

  function Encode(s: AppCodec.Scheme, m: Outgoing): Option<Bytes> {
    match AppCodec.PackFields(s, m.key, m.fields)
    case None => None
    case Some(payload) => BuildPublish(m.topic, payload, m.packetId, m.dup)
  }

  /** handle_publish up to its gates: parse the frame, parse the PUBLISH, verify and unpack. */
  function Receive(s: AppCodec.Scheme, frame: Bytes): Option<Incoming> {
    match ParsePacket(frame)
    case Parsed(p) =>
      if p.kind != PUBLISH then None
      else (match ParsePublish(p)
            case None => None
            case Some(pub) =>
              match AppCodec.Unpack(s, pub.payload)
              case None => None
              case Some(app) => Some(Incoming(pub.topic, pub.packetId, app)))
    case _ => None
  }

  /** What arrives of `m`: its topic, its packet id, its signer and all its fields. */
  function Expected(s: AppCodec.Scheme, m: Outgoing): Incoming
    requires AppCodec.Fits(m.fields)
  {
    Incoming(m.topic, Some(m.packetId),
             AppCodec.AppPacket(s.publicKey(m.key), s.sign(m.key, AppCodec.SignedPart(m.fields)), m.fields))
  }

  /** The frame's header says PUBLISH, QoS 1, not retained, and DUP as asked for. */
  predicate Marked(frame: Bytes, dup: bool) {
    var p := ParsePacket(frame);
    && p.Parsed? && p.value.kind == 3 && p.value.flags < 16
    && QoS(p.value.flags) == 1 && !Retain(p.value.flags) && (Dup(p.value.flags) <==> dup)
  }

  predicate AllSendable(ms: seq<Outgoing>) { forall i :: 0 <= i < |ms| ==> Sendable(ms[i]) }

  predicate AllEncode(s: AppCodec.Scheme, ms: seq<Outgoing>) { forall i :: 0 <= i < |ms| ==> Encode(s, ms[i]).Some? }

  function Stream(s: AppCodec.Scheme, ms: seq<Outgoing>): Bytes
    requires AllEncode(s, ms)
  {
    if ms == [] then [] else Encode(s, ms[0]).value + Stream(s, ms[1..])
  }

  lemma OneMessage(s: AppCodec.Scheme, m: Outgoing, rest: Bytes)
    requires AppCodec.Sound(s) && Sendable(m)
    ensures var wire := Encode(s, m);
            && wire.Some?
            && FrameLength(wire.value + rest) == Some(|wire.value|)
            && Reader.GoodFrame(wire.value) && Marked(wire.value, m.dup)
            && Receive(s, wire.value) == Some(Expected(s, m))
  {
    AppCodec.PackThenUnpack(s, m.key, m.fields);
    var payload := AppCodec.PackFields(s, m.key, m.fields).value;
    PublishRoundTrip(m.topic, payload, m.packetId, m.dup, rest);
    hide FrameLength, ParsePacket, ParsePublish, BuildPublish, AppCodec.Unpack;
  }

  lemma {:induction false} DrainStream(s: AppCodec.Scheme, ms: seq<Outgoing>)
    requires AppCodec.Sound(s) && AllSendable(ms)
    ensures AllEncode(s, ms)
    ensures var d := Reader.Drain(Stream(s, ms));
            && d.rest == []
            && |d.frames| == |ms|
            && Reader.AllGood(d.frames)
            && forall i :: 0 <= i < |ms| ==>
                 Receive(s, d.frames[i]) == Some(Expected(s, ms[i])) && Marked(d.frames[i], ms[i].dup)
  {
    hide FrameLength, ParsePacket, Receive, Encode, Expected, Marked;
    forall i | 0 <= i < |ms| ensures Encode(s, ms[i]).Some? {
      OneMessage(s, ms[i], []);
    }
    if ms == [] {
      Reader.NoFrameInNothing();
    } else {
      var rest := Stream(s, ms[1..]);
      var first := Encode(s, ms[0]).value;
      OneMessage(s, ms[0], rest);
      DrainStream(s, ms[1..]);
      assert (first + rest)[|first|..] == rest && (first + rest)[..|first|] == first;
      forall i | 0 < i < |ms|
        ensures Reader.Drain(first + rest).frames[i] == Reader.Drain(rest).frames[i - 1] && ms[i] == ms[1..][i - 1]
      {
      }
    }
  }

  /** Only a PUBLISH with a verified payload is received, and what is received spells it out. */
  lemma ReceiveExactly(s: AppCodec.Scheme, frame: Bytes, got: Incoming)
    ensures Receive(s, frame) == Some(got) <==>
              var p, app := ParsePacket(frame), got.packet;
              && p.Parsed? && p.value.kind == 3 && AppCodec.Fits(app.fields)
              && |app.src| == 33 && |app.sig| == 64 && s.verify(app.src, app.sig, AppCodec.SignedPart(app.fields))
              && Laid(p.value, Publish(got.topic, app.src + app.sig + AppCodec.SignedPart(app.fields), got.packetId))
  {
    hide ParsePacket, ParsePublish, Laid, AppCodec.Unpack, AppCodec.SignedPart, AppCodec.Fits;
    var p, app := ParsePacket(frame), got.packet;
    if p.Parsed? && AppCodec.Fits(app.fields) {
      var pub := Publish(got.topic, app.src + app.sig + AppCodec.SignedPart(app.fields), got.packetId);
      ParsePublishExactly(p.value, pub);
      if |app.src| == 33 && |app.sig| == 64 { AppCodec.UnpackSpelled(s, app); }
    }
    if p.Parsed? && ParsePublish(p.value).Some? {
      var pub := ParsePublish(p.value).value;
      AppCodec.UnpackExactly(s, pub.payload);
      if AppCodec.Unpack(s, pub.payload).Some? { AppCodec.UnpackParts(s, pub.payload); }
      ParsePublishExactly(p.value, pub);
    }
  }

  /** The whole stack: once every reader task has finished, the frames taken from the stream
      read back as exactly the messages sent, in order and with nothing left over. At any
      earlier moment they read back as the first few of them. */
  lemma {:induction false} RoundTrip(s: AppCodec.Scheme, ms: seq<Outgoing>, events: seq<Reader.Event>)
    requires AppCodec.Sound(s) && AllSendable(ms)
    requires AllEncode(s, ms)
    requires Reader.After(events).received == Stream(s, ms)
    ensures var r := Reader.After(events);
            && |r.frames| <= |ms|
            && (r.active == 0 ==> |r.frames| == |ms| && r.buf == [])
            && forall i :: 0 <= i < |r.frames| ==>
                 Receive(s, r.frames[i]) == Some(Expected(s, ms[i])) && Marked(r.frames[i], ms[i].dup)
  {
    hide FrameLength, ParsePacket, Receive, Encode, Expected, Marked, Reader.After, Reader.Drain, Stream;
    DrainStream(s, ms);
    Reader.InterleavedReaders(events);
  }
}
