/** The variable-length "remaining length" integer of MQTT 3.1.1, section 2.2.3. */
module Varint {
  import opened Basics

  /** The first value that needs more than four bytes. */
  const LIMIT: nat := 0x1000_0000

  datatype Decoded = Value(value: nat, consumed: nat) | TooShort | Malformed

  /** Seven bits a byte, least significant group first; 128 marks "more follows". */
  function Encode(v: nat): (e: Bytes)
    ensures |e| > 0
  {
    if v < 128 then [v] else [v % 128 + 128] + Encode(v / 128)
  }

  /** A continuation byte in front of an already decoded rest. */
  function Continue(b: byte, rest: Decoded): Decoded {
    match rest
    case Value(v, c) => Value(b % 128 + 128 * v, c + 1)
    case failure => failure
  }

  /** What the first `limit` bytes of `buf` denote. */
  function DecodePrefix(buf: Bytes, limit: nat): (d: Decoded)
    ensures d.Value? ==> 1 <= d.consumed <= Min(limit, |buf|)
  {
    if limit == 0 then Malformed
    else if buf == [] then TooShort
    else if buf[0] < 128 then Value(buf[0], 1)
    else Continue(buf[0], DecodePrefix(buf[1..], limit - 1))
  }

  function Decode(buf: Bytes, offset: nat): Decoded {
    DecodePrefix(if offset <= |buf| then buf[offset..] else [], 4)
  }

  method EncodeVarint(value: nat) returns (encoded: Bytes)
    ensures encoded == Encode(value)
  {
    encoded := [];
    var rest, more := value, true;
    while more
      invariant more ==> encoded + Encode(rest) == Encode(value)
      invariant !more ==> encoded == Encode(value)
      decreases if more then 1 + rest else 0
    {
      var b: byte := rest % 128;
      ghost var tail := Encode(rest);
      ghost var before := encoded;
      rest := rest / 128;
      if rest > 0 {
        b := b + 128;
      }
      encoded := encoded + [b];
      more := rest != 0;
      assert tail == if more then [b] + Encode(rest) else [b];
      assert more ==> before + tail == encoded + Encode(rest);
    }
  }

  /** What the decoding loop still has to add once it has read `consumed` groups. */
  ghost function Resume(d: Decoded, value: nat, multiplier: nat, consumed: nat): Decoded {
    match d
    case Value(v, c) => Value(value + v * multiplier, consumed + c)
    case failure => failure
  }

  lemma ResumeStep(rest: Decoded, b: byte, value: nat, multiplier: nat, consumed: nat)
    ensures b % 128 * multiplier >= 0
    ensures b < 128 ==>
              Resume(Value(b, 1), value, multiplier, consumed) == Value(value + b % 128 * multiplier, consumed + 1)
    ensures Resume(Continue(b, rest), value, multiplier, consumed)
         == Resume(rest, value + b % 128 * multiplier, multiplier * 128, consumed + 1)
  {
    if rest.Value? {
      assert (b % 128 + 128 * rest.value) * multiplier == b % 128 * multiplier + rest.value * (multiplier * 128);
    }
  }

  method DecodeVarint(buf: Bytes, offset: nat) returns (d: Decoded)
    ensures d == Decode(buf, offset)
  {
    var multiplier: nat, value: nat, consumed: nat := 1, 0, 0;
    ghost var all := if offset <= |buf| then buf[offset..] else [];
    for i := 0 to 4
      invariant consumed == i <= |all| && multiplier > 0
      invariant Decode(buf, offset) == Resume(DecodePrefix(all[i..], 4 - i), value, multiplier, consumed)
    {
      if offset + i >= |buf| {
        return TooShort;
      }
      var b := buf[offset + i];
      assert all[i..][0] == b && all[i..][1..] == all[i + 1..];
      ResumeStep(DecodePrefix(all[i + 1..], 3 - i), b, value, multiplier, consumed);
      consumed := consumed + 1;
      value := value + b % 128 * multiplier;
      if b < 128 {
        return Value(value, consumed);
      }
      multiplier := multiplier * 128;
    }
    d := Malformed;
  }

  ghost function Pow128(n: nat): (p: nat)
    ensures p > 0
  {
    if n == 0 then 1 else 128 * Pow128(n - 1)
  }

  lemma {:induction false} EncodeThenDecode(v: nat, suffix: Bytes, limit: nat)
    requires limit > 0 || v > 0
    ensures v < Pow128(limit) ==> DecodePrefix(Encode(v) + suffix, limit) == Value(v, |Encode(v)|)
    ensures v >= Pow128(limit) ==> DecodePrefix(Encode(v) + suffix, limit) == Malformed
    decreases limit
  {
    if limit > 0 && v >= 128 {
      EncodeThenDecode(v / 128, suffix, limit - 1);
      assert (Encode(v) + suffix)[1..] == Encode(v / 128) + suffix;
    }
  }

  /** Decoding undoes encoding for exactly the values MQTT allows; a larger value
      is written without complaint and then read back as malformed. */
  lemma RoundTrip(prefix: Bytes, v: nat, suffix: Bytes)
    ensures v < LIMIT <==> Decode(prefix + Encode(v) + suffix, |prefix|) == Value(v, |Encode(v)|)
    ensures v >= LIMIT <==> Decode(prefix + Encode(v) + suffix, |prefix|) == Malformed
  {
    var buf := prefix + Encode(v) + suffix;
    assert buf[|prefix|..] == Encode(v) + suffix;
    assert Pow128(4) == LIMIT by {
      assert Pow128(1) == 128 && Pow128(2) == 16384 && Pow128(3) == 2097152;
    }
    EncodeThenDecode(v, suffix, 4);
  }

  lemma {:induction false} EncodeLength(v: nat, n: nat)
    ensures |Encode(v)| <= n <==> n > 0 && v < Pow128(n)
    decreases n
  {
    if n > 0 && v >= 128 {
      EncodeLength(v / 128, n - 1);
    }
  }

  /** A verdict other than "too short" is final: later bytes never change it. */
  lemma {:induction false} DecodeStable(buf: Bytes, more: Bytes, limit: nat)
    ensures !DecodePrefix(buf, limit).TooShort? ==> DecodePrefix(buf + more, limit) == DecodePrefix(buf, limit)
    decreases limit
  {
    if limit > 0 && buf != [] && buf[0] >= 128 {
      DecodeStable(buf[1..], more, limit - 1);
      assert (buf + more)[1..] == buf[1..] + more;
    }
  }

  ghost predicate AllContinue(buf: Bytes) {
    forall i :: 0 <= i < |buf| ==> buf[i] >= 128
  }

  /** The two failures, told apart by the bytes alone. */
  lemma {:induction false} DecodeFailures(buf: Bytes, limit: nat)
    ensures DecodePrefix(buf, limit).TooShort? <==> |buf| < limit && AllContinue(buf)
    ensures DecodePrefix(buf, limit).Malformed? <==> |buf| >= limit && AllContinue(buf[..limit])
    decreases limit
  {
    if limit > 0 && buf != [] {
      DecodeFailures(buf[1..], limit - 1);
      if |buf| >= limit {
        assert buf[..limit] == [buf[0]] + buf[1..][..limit - 1];
        FirstContinues(buf[0], buf[1..][..limit - 1]);
      } else {
        assert buf == [buf[0]] + buf[1..];
        FirstContinues(buf[0], buf[1..]);
      }
      hide AllContinue;
    }
  }

  lemma FirstContinues(b: byte, rest: Bytes)
    ensures AllContinue([b] + rest) <==> b >= 128 && AllContinue(rest)
  {
    var all := [b] + rest;
    assert all[0] == b && forall i :: 0 <= i < |rest| ==> rest[i] == all[i + 1];
  }

  /** One continuation byte in front, read and written. */
  lemma OneGroup(b: byte, v: nat)
    requires b >= 128
    ensures Continue(b, Value(v, 0)).value == b - 128 + 128 * v
    ensures v > 0 ==> b - 128 + 128 * v >= 128 && Encode(b - 128 + 128 * v) == [b] + Encode(v)
    ensures v == 0 ==> Encode(b - 128 + 128 * v) == [b - 128]
  {
    var x := b - 128 + 128 * v;
    assert x / 128 == v && x % 128 == b - 128;
  }

  lemma DecodeUnfold(buf: Bytes, limit: nat)
    requires DecodePrefix(buf, limit).Value?
    ensures limit > 0 && buf != [] && (buf[0] < 128 ==> DecodePrefix(buf, limit) == Value(buf[0], 1))
    ensures buf[0] >= 128 ==>
              var rest := DecodePrefix(buf[1..], limit - 1);
              rest.Value? && DecodePrefix(buf, limit).value == Continue(buf[0], Value(rest.value, 0)).value
              && DecodePrefix(buf, limit).consumed == rest.consumed + 1
  {
  }

  lemma OneByte(v: nat)
    requires v < 128
    ensures Encode(v) == [v]
  {
  }

  /** Reading back what one more continuation byte in front writes. */
  lemma GroupRead(buf: Bytes, v: nat, n: nat)
    requires buf != [] && buf[0] >= 128 && 1 <= n < |buf|
    ensures v > 0 ==> (Encode(buf[0] - 128 + 128 * v) == buf[..n + 1] <==> Encode(v) == buf[1..][..n])
    ensures v == 0 ==> Encode(buf[0] - 128 + 128 * v) != buf[..n + 1]
    ensures v == 0 && n == 1 && Encode(v) == buf[1..][..n] ==> buf[1] == 0
  {
    OneGroup(buf[0], v);
    OneByte(0);
    hide Encode;
    var read := buf[..n + 1];
    assert read == [buf[0]] + buf[1..][..n];
    if v > 0 {
      assert ([buf[0]] + Encode(v))[1..] == Encode(v) && read[1..] == buf[1..][..n];
    } else {
      assert read[0] == buf[0];
      assert n == 1 ==> buf[1..][..n][0] == buf[1];
    }
  }

  /** Encoding undoes decoding exactly when the bytes carry no superfluous zero group. */
  lemma {:induction false} DecodeThenEncode(buf: Bytes, limit: nat)
    requires DecodePrefix(buf, limit).Value?
    ensures var d := DecodePrefix(buf, limit);
            Encode(d.value) == buf[..d.consumed] <==> d.consumed == 1 || buf[d.consumed - 1] != 0
    ensures var d := DecodePrefix(buf, limit);
            d.consumed > 1 && buf[d.consumed - 1] != 0 ==> d.value >= 128
    decreases limit
  {
    assert DecodePrefix(buf, limit).consumed >= 1;
    hide DecodePrefix, Encode, Continue;
    DecodeUnfold(buf, limit);
    if buf[0] >= 128 {
      var d, rest := DecodePrefix(buf, limit), DecodePrefix(buf[1..], limit - 1);
      DecodeThenEncode(buf[1..], limit - 1);
      OneGroup(buf[0], rest.value);
      GroupRead(buf, rest.value, rest.consumed);
      assert buf[d.consumed - 1] == buf[1..][rest.consumed - 1];
    } else {
      OneByte(buf[0]);
    }
  }

  // ---- what the bytes denote ---------------------------------------------------------------------

  /** The number that seven-bit groups denote: group `i` has weight 128^i. */
  ghost function Weight(b: Bytes): nat {
    if b == [] then 0 else Weight(b[..|b| - 1]) + b[|b| - 1] % 128 * Pow128(|b| - 1)
  }

  lemma {:induction false} WeightOfFirst(b: Bytes)
    requires b != []
    ensures Weight(b) == b[0] % 128 + 128 * Weight(b[1..])
    decreases |b|
  {
    var n := |b| - 1;
    if n == 0 {
      assert Weight(b[..0]) == 0 && Weight(b[1..]) == 0 && Pow128(0) == 1;
    } else {
      WeightOfFirst(b[..n]);
      assert b[..n][1..] == b[1..][..n - 1] && b[1..][n - 1] == b[n];
      assert b[n] % 128 * Pow128(n) == 128 * (b[n] % 128 * Pow128(n - 1));
    }
  }

  /** The last of these bytes, and no other, has the continuation bit clear. */
  ghost predicate Ends(b: Bytes) {
    b != [] && AllContinue(b[..|b| - 1]) && b[|b| - 1] < 128
  }

  lemma EndsLater(b: byte, rest: Bytes)
    requires b >= 128 && Ends(rest)
    ensures Ends([b] + rest)
  {
    assert ([b] + rest)[..|rest|] == [b] + rest[..|rest| - 1];
    FirstContinues(b, rest[..|rest| - 1]);
  }

  /** A value read is the weight of the groups up to the first byte that ends the number. */
  lemma {:induction false} DecodeWeighs(buf: Bytes, limit: nat)
    requires DecodePrefix(buf, limit).Value?
    ensures var d := DecodePrefix(buf, limit); d.value == Weight(buf[..d.consumed]) && Ends(buf[..d.consumed])
    decreases limit
  {
    var d := DecodePrefix(buf, limit);
    var read := buf[..d.consumed];
    WeightOfFirst(read);
    if buf[0] >= 128 {
      DecodeWeighs(buf[1..], limit - 1);
      var rest := buf[1..][..d.consumed - 1];
      assert read == [buf[0]] + rest && read[1..] == rest;
      EndsLater(buf[0], rest);
    } else {
      assert read == [buf[0]] && read[1..] == [] && read[..0] == [];
    }
  }

  /** What is written weighs the value, ends where it should, and has no superfluous group. */
  lemma {:induction false} EncodeWeighs(v: nat)
    ensures Weight(Encode(v)) == v && Ends(Encode(v))
    ensures |Encode(v)| > 1 ==> Encode(v)[|Encode(v)| - 1] != 0
  {
    WeightOfFirst(Encode(v));
    if v >= 128 {
      EncodeWeighs(v / 128);
      assert Encode(v)[1..] == Encode(v / 128);
      EndsLater(v % 128 + 128, Encode(v / 128));
    } else {
      assert Encode(v)[1..] == [] && Encode(v)[..0] == [];
    }
  }

  /** Past the end of the buffer there is nothing to read. */
  lemma DecodeBeyond(buf: Bytes, offset: nat)
    requires offset >= |buf|
    ensures Decode(buf, offset) == TooShort
  {
    assert (if offset <= |buf| then buf[offset..] else []) == [];
  }
}
