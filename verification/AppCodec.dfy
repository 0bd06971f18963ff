/** The signed application packet: src_pk(33) sig(64) queue_id(32) seq_no(4) timestamp(8)
    msg_type(1) msg. ECDSA is a `Scheme` parameter of which only "a signature made with a
    key verifies under its public key" is ever assumed. */
module AppCodec {
  import opened Basics

  const SRC_PK_LEN: nat := 33
  const SIG_LEN: nat := 64
  const QUEUE_ID_LEN: nat := 32
  const SIGNED_MSG_OFFSET: nat := SRC_PK_LEN + SIG_LEN
  const MSG_OFFSET: nat := QUEUE_ID_LEN + 4 + 8 + 1
  const MIN_PACKET_LEN: nat := SIGNED_MSG_OFFSET + MSG_OFFSET

  datatype Scheme = Scheme(sign: (Bytes, Bytes) -> Bytes, publicKey: Bytes -> Bytes,
    verify: (Bytes, Bytes, Bytes) -> bool)

  ghost predicate Sound(s: Scheme) {
    forall key, m ::
      && |s.publicKey(key)| == SRC_PK_LEN
      && |s.sign(key, m)| == SIG_LEN
      && s.verify(s.publicKey(key), s.sign(key, m), m)
  }

  datatype Fields = Fields(queueId: Bytes, seqNo: nat, timestamp: nat, kind: nat, msg: Bytes)

  datatype AppPacket = AppPacket(src: Bytes, sig: Bytes, fields: Fields)

  /** What the fixed-width layout can carry; struct.pack and the queue-id check raise otherwise. */
  predicate Fits(f: Fields) {
    |f.queueId| == QUEUE_ID_LEN && f.seqNo < Pow256(4) && f.timestamp < Pow256(8) && f.kind < 256
  }

  function SignedPart(f: Fields): Bytes
    requires Fits(f)
  {
    f.queueId + BigEndian(f.seqNo, 4) + BigEndian(f.timestamp, 8) + [f.kind] + f.msg
  }

  function PackFields(s: Scheme, key: Bytes, f: Fields): Option<Bytes> {
    if !Fits(f) then None
    else Some(s.publicKey(key) + s.sign(key, SignedPart(f)) + SignedPart(f))
  }

  function ReadFields(signed: Bytes): (f: Fields)
    requires |signed| >= MSG_OFFSET
  {
    Fields(signed[..32], FromBigEndian(signed[32..36]), FromBigEndian(signed[36..44]), signed[44], signed[45..])
  }

  function Unpack(s: Scheme, payload: Bytes): Option<AppPacket> {
    if |payload| < MIN_PACKET_LEN then None
    else
      var src, sig, signed := payload[..33], payload[33..97], payload[97..];
      if !s.verify(src, sig, signed) then None
      else Some(AppPacket(src, sig, ReadFields(signed)))
  }

  lemma SignedPartRoundTrip(f: Fields)
    requires Fits(f)
    ensures ReadFields(SignedPart(f)) == f
  {
    var b := SignedPart(f);
    assert b[..32] == f.queueId;
    assert b[32..36] == BigEndian(f.seqNo, 4);
    assert b[36..44] == BigEndian(f.timestamp, 8);
    assert b[45..] == f.msg;
    BigEndianRoundTrip(f.seqNo, 4);
    BigEndianRoundTrip(f.timestamp, 8);
  }

  /** Reading is injective: the fields determine the signed bytes. */
  lemma ReadFieldsRoundTrip(signed: Bytes)
    requires |signed| >= MSG_OFFSET
    ensures Fits(ReadFields(signed)) && SignedPart(ReadFields(signed)) == signed
  {
    FromBigEndianRoundTrip(signed[32..36]);
    FromBigEndianRoundTrip(signed[36..44]);
    assert signed == signed[..32] + signed[32..36] + signed[36..44] + [signed[44]] + signed[45..];
  }

  /** Unpacking undoes packing, and the source is the signer's public key. */
  lemma PackThenUnpack(s: Scheme, key: Bytes, f: Fields)
    requires Sound(s)
    ensures PackFields(s, key, f).Some? <==> Fits(f)
    ensures Fits(f) ==>
              Unpack(s, PackFields(s, key, f).value) == Some(AppPacket(s.publicKey(key), s.sign(key, SignedPart(f)), f))
  {
    if Fits(f) {
      var pk, sig, signed := s.publicKey(key), s.sign(key, SignedPart(f)), SignedPart(f);
      var p := pk + sig + signed;
      assert p[..33] == pk && p[33..97] == sig && p[97..] == signed;
      SignedPartRoundTrip(f);
    }
  }

  /** A payload is accepted exactly when it is long enough and its signature verifies over
      everything after the signature; the accepted packet then spells out every byte of it,
      so no two payloads unpack to the same packet. */
  lemma UnpackExactly(s: Scheme, payload: Bytes)
    ensures Unpack(s, payload).Some? <==>
            |payload| >= MIN_PACKET_LEN && s.verify(payload[..33], payload[33..97], payload[97..])
    ensures forall p :: Unpack(s, payload) == Some(p) ==>
              Fits(p.fields) && payload == p.src + p.sig + SignedPart(p.fields)
  {
    if |payload| >= MIN_PACKET_LEN {
      ReadFieldsRoundTrip(payload[97..]);
      assert payload == payload[..33] + payload[33..97] + payload[97..];
    }
  }

  /** The packet object: packing stamps its creation time once. */
  class Envelope {
    const queueId: Bytes
    const seqNo: nat
    const kind: nat
    const msg: Bytes
    var timestamp: Option<nat>
    var signature: Option<Bytes>

    constructor (queueId: Bytes, seqNo: nat, kind: nat, msg: Bytes)
      ensures this.queueId == queueId && this.seqNo == seqNo && this.kind == kind && this.msg == msg
      ensures timestamp == None && signature == None
    {
      this.queueId, this.seqNo, this.kind, this.msg := queueId, seqNo, kind, msg;
      timestamp, signature := None, None;
    }

    /** The fields as they would be packed at whole second `now`. */
    function FieldsAt(now: nat): Fields
      reads this
    {
      Fields(queueId, seqNo, if timestamp.Some? then timestamp.value else now, kind, msg)
    }

    /** However often and however late an envelope is packed, its bytes carry the time of
        the first packing: `FieldsAt` no longer depends on the clock. */
    method Pack(s: Scheme, key: Bytes, now: nat) returns (out: Option<Bytes>)
      modifies this
      ensures out == PackFields(s, key, old(FieldsAt(now)))
      ensures |queueId| == QUEUE_ID_LEN ==> forall later :: FieldsAt(later) == old(FieldsAt(now))
      ensures |queueId| != QUEUE_ID_LEN ==> timestamp == old(timestamp)
      ensures out.Some? ==> signature == Some(s.sign(key, SignedPart(old(FieldsAt(now)))))
      ensures out.None? ==> signature == old(signature)
    {
      if |queueId| != QUEUE_ID_LEN {
        return None;
      }
      if timestamp.None? {
        timestamp := Some(now);
      }
      var f := Fields(queueId, seqNo, timestamp.value, kind, msg);
      if !Fits(f) {
        return None;
      }
      signature := Some(s.sign(key, SignedPart(f)));
      out := Some(s.publicKey(key) + signature.value + SignedPart(f));
    }
  }

  /** Where everything stands in a packed payload, and what can be packed at all. The signature
      covers everything after itself. */
  lemma Layout(s: Scheme, key: Bytes, f: Fields)
    requires Sound(s)
    ensures PackFields(s, key, f).Some?
            <==> |f.queueId| == 32 && f.seqNo < 0x1_0000_0000 && f.timestamp < 0x1_0000_0000_0000_0000 && f.kind < 256
    ensures PackFields(s, key, f).Some? ==>
              var p := PackFields(s, key, f).value;
              && |p| == 142 + |f.msg|
              && p[..33] == s.publicKey(key) && p[33..97] == s.sign(key, p[97..])
              && s.verify(p[..33], p[33..97], p[97..])
              && p[97..129] == f.queueId && p[142..] == f.msg
              && FromBigEndian(p[129..133]) == f.seqNo && FromBigEndian(p[133..141]) == f.timestamp && p[141] == f.kind
  {
    Widths();
    if Fits(f) {
      var pk, sig, b := s.publicKey(key), s.sign(key, SignedPart(f)), SignedPart(f);
      var p := pk + sig + b;
      BigEndianRoundTrip(f.seqNo, 4);
      BigEndianRoundTrip(f.timestamp, 8);
      hide Pow256, BigEndian, FromBigEndian;
      assert p[..33] == pk && p[33..97] == sig && p[97..] == b;
      assert p[97..129] == f.queueId && p[129..133] == BigEndian(f.seqNo, 4);
      assert p[133..141] == BigEndian(f.timestamp, 8) && p[142..] == f.msg;
    }
  }

  lemma Widths()
    ensures Pow256(4) == 0x1_0000_0000 && Pow256(8) == 0x1_0000_0000_0000_0000
  {
    assert Pow256(1) == 256 && Pow256(2) == 0x1_0000 && Pow256(3) == 0x100_0000 && Pow256(4) == 0x1_0000_0000;
    assert Pow256(5) == 256 * Pow256(4) && Pow256(6) == 256 * Pow256(5);
    assert Pow256(7) == 256 * Pow256(6) && Pow256(8) == 256 * Pow256(7);
  }

  /** What is too short for the fixed fields is refused, and nothing else but for its signature. */
  lemma TooShortExactly(s: Scheme, payload: Bytes)
    ensures |payload| < 142 ==> Unpack(s, payload).None?
    ensures |payload| >= 142 && s.verify(payload[..33], payload[33..97], payload[97..]) ==> Unpack(s, payload).Some?
  {
  }

  lemma UnpackSpelled(s: Scheme, p: AppPacket)
    requires Fits(p.fields) && |p.src| == 33 && |p.sig| == 64
    ensures Unpack(s, p.src + p.sig + SignedPart(p.fields)) == Some(p) <==> s.verify(p.src, p.sig, SignedPart(p.fields))
  {
    var payload := p.src + p.sig + SignedPart(p.fields);
    assert payload[..33] == p.src && payload[33..97] == p.sig && payload[97..] == SignedPart(p.fields);
    SignedPartRoundTrip(p.fields);
    hide ReadFields, SignedPart;
  }

  lemma UnpackParts(s: Scheme, payload: Bytes)
    requires Unpack(s, payload).Some?
    ensures var p := Unpack(s, payload).value;
            && |p.src| == 33 && |p.sig| == 64 && Fits(p.fields) && s.verify(p.src, p.sig, SignedPart(p.fields))
  {
    ReadFieldsRoundTrip(payload[97..]);
    hide ReadFields, SignedPart, Fits;
  }
}
